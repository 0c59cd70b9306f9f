/**
 Canonical guest paths: a list of components and its spelling, and the buffer
 operations the resolver performs on the spelling.
 */
module PathNames {
  const PATH_MAX: nat := 4096

  predicate Name(c: string) { c != "" && '/' !in c }

  /** A component of a canonical path. */
  predicate Normal(c: string) { Name(c) && c != "." && c != ".." }

  predicate Names(cs: seq<string>) { forall i :: 0 <= i < |cs| ==> Name(cs[i]) }

  predicate AllNormal(cs: seq<string>) { forall i :: 0 <= i < |cs| ==> Normal(cs[i]) }

  /** "/a" for each component. */
  function Joined(cs: seq<string>): string {
    if cs == [] then "" else Joined(cs[..|cs| - 1]) + "/" + cs[|cs| - 1]
  }

  function Spell(cs: seq<string>): string { if cs == [] then "/" else Joined(cs) }

  lemma {:induction false} JoinedStep(cs: seq<string>, c: string)
    ensures Joined(cs + [c]) == Joined(cs) + "/" + c
  {
    assert (cs + [c])[..|cs|] == cs;
  }

  /** The spelling of a prefix is a prefix of the spelling, at a boundary. */
  lemma {:induction false} JoinedPrefix(cs: seq<string>, k: nat)
    requires k <= |cs|
    ensures |Joined(cs[..k])| <= |Joined(cs)| && Joined(cs)[..|Joined(cs[..k])|] == Joined(cs[..k])
    ensures k < |cs| ==> |Joined(cs[..k])| < |Joined(cs)| && Joined(cs)[|Joined(cs[..k])|] == '/'
  {
    if k < |cs| {
      var front := cs[..|cs| - 1];
      JoinedPrefix(front, k);
      assert front[..k] == cs[..k];
      if k == |front| { assert cs[..k] == front; }
    } else {
      assert cs[..k] == cs;
    }
  }

  lemma {:induction false} JoinedConcat(a: seq<string>, b: seq<string>)
    ensures Joined(a + b) == Joined(a) + Joined(b)
  {
    if b == [] {
      assert a + b == a;
    } else {
      var front := b[..|b| - 1];
      assert (a + b)[..|a + b| - 1] == a + front;
      JoinedConcat(a, front);
    }
  }

  // ------------------------------------------------------------ canon_push, canon_pop, canon_depth

  lemma {:induction false} SpellLength(cs: seq<string>)
    requires Names(cs) && cs != []
    ensures |Joined(cs)| >= 2
  {
  }

  /** canon_push: refused when it will not fit. */
  method Push(canon: string, comp: string, ghost cs: seq<string>) returns (ok: bool, out: string)
    requires canon == Spell(cs) && Names(cs)
    ensures ok <==> |canon| + 1 + |comp| + 1 <= PATH_MAX
    ensures ok ==> out == Spell(cs + [comp]) && |out| + 1 <= PATH_MAX
  {
    if |canon| + 1 + |comp| + 1 > PATH_MAX { return false, ""; }
    JoinedStep(cs, comp);
    if cs != [] { SpellLength(cs); }
    if |canon| > 1 {
      out := canon + "/" + comp;
    } else {
      out := "/" + comp;
    }
    ok := true;
  }

  function Parent(cs: seq<string>): seq<string> { if cs == [] then [] else cs[..|cs| - 1] }

  /** canon_pop, clamped at "/". */
  method Pop(canon: string, ghost cs: seq<string>) returns (out: string)
    requires canon == Spell(cs) && Names(cs)
    ensures out == Spell(Parent(cs))
  {
    ghost var front := Joined(Parent(cs));
    forall j | |front| < j < |canon| ensures canon[j] != '/' {
      assert canon[j] == cs[|cs| - 1][j - |front| - 1];
    }
    assert canon[|front|] == '/';
    var s := |canon|;
    while s > 0 && canon[s - 1] != '/'
      invariant |front| < s <= |canon|
    {
      s := s - 1;
    }
    assert s - 1 == |front|;
    if s - 1 == 0 {
      if cs != [] && Parent(cs) != [] { SpellLength(Parent(cs)); }
      return "/";
    }
    out := canon[..s - 1];
  }

  lemma {:induction false} SlashNoLater(s: string, p: string, x: string, n: nat)
    requires '/' !in x && s == p + "/" + x && n < |s| && s[n] == '/'
    ensures n <= |p|
  {
    assert forall i :: |p| < i < |s| ==> s[i] == x[i - |p| - 1] && s[i] in x;
  }

  lemma {:induction false} LastSlash(p: string, x: string, q: string, y: string)
    requires '/' !in x && '/' !in y && p + "/" + x == q + "/" + y
    ensures p == q && x == y
  {
    var s := p + "/" + x;
    SlashNoLater(s, p, x, |q|);
    SlashNoLater(s, q, y, |p|);
    assert p == s[..|p|] && q == s[..|q|];
    assert x == s[|p| + 1..] && y == s[|q| + 1..];
  }

  /** Two canonical paths spelled alike are the same. */
  lemma {:induction false} JoinedInjective(a: seq<string>, b: seq<string>)
    requires Names(a) && Names(b) && Joined(a) == Joined(b)
    ensures a == b
  {
    if a == [] || b == [] {
      if a != [] { SpellLength(a); }
      if b != [] { SpellLength(b); }
    } else {
      LastSlash(Joined(Parent(a)), a[|a| - 1], Joined(Parent(b)), b[|b| - 1]);
      JoinedInjective(Parent(a), Parent(b));
      assert a == Parent(a) + [a[|a| - 1]] && b == Parent(b) + [b[|b| - 1]];
    }
  }

  lemma {:induction false} SpellInjective(a: seq<string>, b: seq<string>)
    requires Names(a) && Names(b) && Spell(a) == Spell(b)
    ensures a == b
  {
    if a != [] { SpellLength(a); }
    if b != [] { SpellLength(b); }
    JoinedInjective(a, b);
  }

  /** What fits whole fitted when its components were pushed one by one. */
  lemma {:induction false} PushFits(c: seq<string>, k: nat)
    requires Names(c) && k < |c| && |Spell(c)| + 1 <= PATH_MAX && (k == 0 ==> |c[0]| + 3 <= PATH_MAX)
    ensures |Spell(c[..k])| + 1 + |c[k]| + 1 <= PATH_MAX && |c[k]| < PATH_MAX
  {
    assert c[..k + 1] == c[..k] + [c[k]] && c[..0] == [];
    JoinedStep(c[..k], c[k]);
    JoinedPrefix(c, k + 1);
    if k > 0 { SpellLength(c[..k]); }
  }

  /** How many names start in a text. */
  function Starts(t: string): nat {
    if t == "" then 0
    else Starts(t[..|t| - 1]) + if |t| >= 2 && t[|t| - 2] == '/' && t[|t| - 1] != '/' then 1 else 0
  }

  lemma {:induction false} StartsName(t: string, c: string, n: nat)
    requires Name(c) && n <= |c|
    ensures Starts(t + "/" + c[..n]) == Starts(t + "/") + if n > 0 then 1 else 0
  {
    var u := t + "/" + c[..n];
    if n == 0 {
      assert u == t + "/";
    } else {
      StartsName(t, c, n - 1);
      assert u[..|u| - 1] == t + "/" + c[..n - 1];
      assert u[|u| - 1] == c[n - 1] && c[n - 1] in c;
      assert n > 1 ==> u[|u| - 2] == c[n - 2] && c[n - 2] in c;
    }
  }

  lemma {:induction false} StartsSlash(t: string)
    ensures Starts(t + "/") == Starts(t)
  {
    assert (t + "/")[..|t|] == t;
  }

  lemma {:induction false} StartsJoined(cs: seq<string>)
    requires Names(cs)
    ensures Starts(Joined(cs)) == |cs|
  {
    if cs != [] {
      var front, c := cs[..|cs| - 1], cs[|cs| - 1];
      StartsJoined(front);
      StartsName(Joined(front), c, |c|);
      StartsSlash(Joined(front));
      assert c[..|c|] == c;
    }
  }

  method CountStarts(t: string) returns (n: nat)
    ensures n == Starts(t)
  {
    n := 0;
    var i := 0;
    while i < |t|
      invariant 0 <= i <= |t| && n == Starts(t[..if i < |t| then i + 1 else i])
    {
      if i + 1 < |t| {
        assert t[..i + 2][..i + 1] == t[..i + 1];
        if t[i] == '/' && t[i + 1] != '/' { n := n + 1; }
      }
      i := i + 1;
    }
    assert t[..i] == t;
  }

  /** canon_depth: the components below `root`. */
  method Depth(canon: string, root: string, ghost top: seq<string>, ghost below: seq<string>) returns (n: nat)
    requires root == Spell(top) && canon == Spell(top + below) && Names(top) && Names(below)
    ensures n == |below|
  {
    hide Starts;
    SpellBelow(top, below);
    var t := canon;
    if |root| > 1 && |root| <= |canon| && canon[..|root|] == root { t := canon[|root|..]; }
    n := CountStarts(t);
  }

  lemma {:induction false} SpellBelow(top: seq<string>, below: seq<string>)
    requires Names(top) && Names(below)
    ensures var root, canon := Spell(top), Spell(top + below);
            if |root| > 1 then |root| <= |canon| && canon[..|root|] == root && Starts(canon[|root|..]) == |below|
            else Starts(canon) == |below|
  {
    JoinedConcat(top, below);
    StartsJoined(below);
    if top == [] {
      assert top + below == below;
    } else {
      SpellLength(top);
    }
  }

  // ------------------------------------------------------------ reading a path

  predicate AllSlashes(s: string) { forall i :: 0 <= i < |s| ==> s[i] == '/' }

  /** The text from its first component on. */
  function Skip(s: string): (r: string)
    ensures |r| <= |s| && (r != "" ==> r[0] != '/') && (r == "" <==> AllSlashes(s))
  {
    if s == "" then "" else if s[0] == '/' then Skip(s[1..]) else s
  }

  /** How long the first component is. */
  function Span(s: string): (n: nat)
    ensures n <= |s| && '/' !in s[..n] && (n < |s| ==> s[n] == '/')
  {
    if s == "" || s[0] == '/' then 0 else assert s[..1 + Span(s[1..])] == [s[0]] + s[1..][..Span(s[1..])]; 1 + Span(s[1..])
  }

  /** path_wants_dir: a trailing slash, or a final "." or "..". */
  predicate WantsDir(s: string) {
    s != "" && (s[|s| - 1] == '/' || LastName(s) in {".", ".."})
  }

  function LastName(s: string): string {
    if s == "" || s[|s| - 1] == '/' then "" else LastName(s[..|s| - 1]) + [s[|s| - 1]]
  }
}
