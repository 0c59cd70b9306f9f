/**
 Where a walk starts, and the shortcut: a relative path is the absolute path that
 spells its directory first; the directory it starts in is climbed out of without
 a look at it; and when the optimistic answer is taken.
 */
module PathStarts {
  import opened Options
  import opened PathNames
  import opened PathWalk
  import opened PathLaws
  import opened PathHosts
  import opened PathFast

  // ------------------------------------------------------------ the directory a walk starts in

  /** ".." out of the directory the walk started in, gone or not, asks nothing. */
  lemma {:induction false} ClimbsOut(env: Env, top: seq<string>, fl: Flags, st: St, rest: string)
    requires st.links <= MAX_LINKS && (rest == "" || rest[0] == '/') && st.rest == "/.." + rest
    requires st.canon != top && st.depth <= st.trusted
    ensures Walk(env, top, fl, false, st)
            == Walk(env, top, fl, false, st.(canon := Parent(st.canon), rest := rest, depth := st.depth - 1,
                                             trusted := st.depth - 1, gone := false))
  {
    hide Map, Skip, Component, After, Spell, In;
    assert "/.." + rest == "/" + ".." + rest;
    FirstIs("..", rest);
  }

  /** An unlinked directory: itself, by no name or by ".", and nothing in it. */
  lemma {:induction false} UnlinkedHolds(env: Env, top: seq<string>, fl: Flags, st: St, name: string, rest: string)
    requires st.links <= MAX_LINKS && st.gone && Name(name) && |name| < PATH_MAX && (rest == "" || rest[0] == '/')
    ensures st.rest == "" ==> Walk(env, top, fl, false, st) == Resolved(st.canon, ".")
    ensures st.rest == "/" + name + rest && Normal(name) ==> Walk(env, top, fl, false, st) == Err(ENOENT)
    ensures st.rest == "/." + rest ==> Walk(env, top, fl, false, st) == Walk(env, top, fl, false, st.(rest := rest))
  {
    hide Map, Skip, Component, After, Spell, In;
    FirstIs(name, rest);
    assert "/." + rest == "/" + "." + rest;
    FirstIs(".", rest);
    assert Skip("") == "" by { NoText(); }
  }

  // ------------------------------------------------------------ relative paths

  /** Every directory on the way down to `c` is one. */
  ghost predicate AllDirectories(env: Env, n: nat, c: seq<string>) {
    forall k :: n < k <= |c| ==> Map(env, Spell(c[..k])).Mapped? && env.kind(Map(env, Spell(c[..k])).host) == Directory
  }

  /** What is trusted of the path is still the directory the walk started in. */
  ghost predicate Shares(top: seq<string>, from: seq<string>, st: St) {
    && 0 <= st.trusted && |top| + st.trusted <= |from| && |top| + st.trusted <= |st.canon|
    && st.canon[..|top| + st.trusted] == from[..|top| + st.trusted]
  }

  /** The same walk, but for how much of its start it trusts. */
  ghost predicate Alike(top: seq<string>, from: seq<string>, st: St, st': St) {
    st' == st.(trusted := st'.trusted) && 0 <= st'.trusted <= st.trusted && Shares(top, from, st)
  }

  ghost predicate AlikeOutcome(top: seq<string>, from: seq<string>, o: Outcome, o': Outcome) {
    o' == o || (o.Go? && o'.Go? && Alike(top, from, o.st, o'.st))
  }

  lemma {:induction false} SharesLess(top: seq<string>, from: seq<string>, st: St, st': St)
    requires Shares(top, from, st) && 0 <= st'.trusted <= st.trusted && |top| + st'.trusted <= |st'.canon|
    requires st'.canon[..|top| + st'.trusted] == st.canon[..|top| + st'.trusted]
    ensures Shares(top, from, st')
  {
    var n := |top| + st'.trusted;
    assert st.canon[..n] == st.canon[..|top| + st.trusted][..n] == from[..|top| + st.trusted][..n] == from[..n];
  }

  lemma {:induction false} UpAlike(env: Env, top: seq<string>, from: seq<string>, st: St, st': St)
    requires Alike(top, from, st, st') && AllDirectories(env, |top|, from) && Contained(top, st) && st.canon != top
    ensures AlikeOutcome(top, from, Up(env, top, false, st), Up(env, top, false, st'))
  {
    hide Map, AllNormal, Spell;
    var p, m := Parent(st.canon), Min(st.trusted, st.depth - 1);
    assert |st.canon| > |top| by { assert st.canon[..|top|] == top; }
    if st.depth <= st.trusted {
      assert st.depth == st.trusted && st.canon[..|st.canon|] == st.canon == from[..|st.canon|];
      assert Map(env, Spell(from[..|st.canon|])).Mapped?;
    }
    var up := st.(canon := p, depth := st.depth - 1, trusted := m, gone := false);
    assert p[..|top| + m] == st.canon[..|top| + m];
    SharesLess(top, from, st, up);
  }

  lemma {:induction false} SpliceAlike(top: seq<string>, from: seq<string>, st: St, st': St, target: string)
    requires Alike(top, from, st, st') && Contained(top, st) && Below(top, from)
    ensures AlikeOutcome(top, from, Splice(top, st, target), Splice(top, st', target))
  {
    hide WantsDir, AllNormal, Spell;
  }

  lemma {:induction false} FollowAlike(env: Env, top: seq<string>, from: seq<string>, st: St, st': St, comp: string, host: string)
    requires Alike(top, from, st, st') && Contained(top, st) && Below(top, from)
    ensures AlikeOutcome(top, from, Follow(env, top, st, comp, host), Follow(env, top, st', comp, host))
  {
    hide WantsDir, AllSlashes, In, DepthOf, Splice, Below, Spell;
    forall target ensures AlikeOutcome(top, from, Splice(top, st, target), Splice(top, st', target)) {
      SpliceAlike(top, from, st, st', target);
    }
    PushAlike(top, from, st, st', comp);
    hide Shares;
  }

  lemma {:induction false} PushAlike(top: seq<string>, from: seq<string>, st: St, st': St, comp: string)
    requires Alike(top, from, st, st')
    ensures var n, n' := st.(canon := st.canon + [comp], depth := st.depth + 1, gone := false),
                         st'.(canon := st.canon + [comp], depth := st.depth + 1, gone := false);
            Alike(top, from, n, n')
  {
    var n := st.(canon := st.canon + [comp], depth := st.depth + 1, gone := false);
    assert n.canon[..|top| + st.trusted] == st.canon[..|top| + st.trusted];
  }

  lemma {:induction false} StepAlike(env: Env, top: seq<string>, fl: Flags, from: seq<string>, st: St, st': St)
    requires Alike(top, from, st, st') && Contained(top, st) && Below(top, from) && AllDirectories(env, |top|, from)
    requires Skip(st.rest) != "" && st.links <= MAX_LINKS && !st.gone
    ensures AlikeOutcome(top, from, Step(env, top, fl, false, st), Step(env, top, fl, false, st'))
  {
    hide Map, Skip, Component, After, Spell, AllSlashes, Follow, Up, Below, Shares, AllDirectories;
    var comp, next, next' := Component(st.rest), st.(rest := After(st.rest)), st'.(rest := After(st.rest));
    NextShares(top, from, st, After(st.rest));
    if comp == ".." {
      if st.canon != top { UpAlike(env, top, from, next, next'); } else { AtTop(env, top, from, next, next'); }
    } else {
      var m := Map(env, Spell(st.canon + [comp]));
      PushAlike(top, from, next, next', comp);
      if m.Mapped? { FollowAlike(env, top, from, next, next', comp, m.host); }
    }
  }

  lemma {:induction false} NextShares(top: seq<string>, from: seq<string>, st: St, rest: string)
    requires Shares(top, from, st)
    ensures Shares(top, from, st.(rest := rest))
  {
  }

  lemma {:induction false} AtTop(env: Env, top: seq<string>, from: seq<string>, st: St, st': St)
    requires Alike(top, from, st, st') && st.canon == top
    ensures AlikeOutcome(top, from, Up(env, top, false, st), Up(env, top, false, st'))
  {
    hide Map;
  }

  /** How much of its start a walk trusts makes no difference where that is all
   directories. */
  lemma {:induction false} WalkAlike(env: Env, top: seq<string>, fl: Flags, from: seq<string>, st: St, st': St)
    requires Alike(top, from, st, st') && Contained(top, st) && Below(top, from) && AllDirectories(env, |top|, from)
    requires st.links <= MAX_LINKS && !st.gone && AllNormal(top) && |Spell(top)| + 1 <= PATH_MAX
    ensures Walk(env, top, fl, false, st) == Walk(env, top, fl, false, st')
    decreases MAX_LINKS - st.links, |st.rest|
  {
    hide Step, Skip, Map, Shares, AllDirectories, Below, AllNormal, Spell, Finish;
    if Skip(st.rest) != "" {
      var o, o' := Step(env, top, fl, false, st), Step(env, top, fl, false, st');
      StepAlike(env, top, fl, from, st, st');
      if o != o' {
        StepContained(env, top, fl, false, st);
        GoneAlike(env, top, fl, st, st');
        WalkAlike(env, top, fl, from, o.st, o'.st);
      }
    } else {
      FinishOnly(env, fl, st, st');
    }
  }

  /** A step to an unlinked directory trusts no less of it the one way than the other. */
  lemma {:induction false} GoneAlike(env: Env, top: seq<string>, fl: Flags, st: St, st': St)
    requires st' == st.(trusted := st'.trusted) && Skip(st.rest) != "" && st.links <= MAX_LINKS && !st.gone
    ensures var o, o' := Step(env, top, fl, false, st), Step(env, top, fl, false, st'); o.Go? && o.st.gone ==> o' == o
  {
    hide Map, Skip, Component, After, Spell, AllSlashes, In, DepthOf, WantsDir;
  }

  /** A relative path is the absolute path that spells the directory first. */
  lemma {:induction false} RelativeIsAbsolute(env: Env, top: seq<string>, from: seq<string>, path: string, fl: Flags)
    requires Below(top, from) && Settled(env, |top|, from, false) && AllDirectories(env, |top|, from)
    requires path != "" && path[0] != '/' && |Joined(from[|top|..]) + "/" + path| + 1 <= PATH_MAX
    ensures Resolve(env, top, from, false, path, fl, false)
            == Resolve(env, top, from, false, Joined(from[|top|..]) + "/" + path, fl, false)
  {
    hide Walk, Map, Settled, WantsDir, Joined, Spell, DepthOf, Skip, AllDirectories;
    ComesToText(env, top, from, fl, from, path);
    DepthBelow(top, from);
    TopFits(top, from);
    var st := Start(top, from, false, path);
    var st' := st.(trusted := 0);
    assert from[..|top| + st.trusted] == from;
    WalkAlike(env, top, fl, from, st, st');
  }

  lemma {:induction false} TopFits(top: seq<string>, c: seq<string>)
    requires Below(top, c)
    ensures AllNormal(top) && |Spell(top)| + 1 <= PATH_MAX
  {
    forall i | 0 <= i < |top| ensures Normal(top[i]) { assert top[i] == c[..|top|][i] == c[i]; }
    JoinedPrefix(c, |top|);
  }

  // ------------------------------------------------------------ when the shortcut is taken

  /** Where a component of a spelling ends, a prefix of the names does. */
  lemma {:induction false} BoundaryIsName(c: seq<string>, j: int) returns (k: nat)
    requires Names(c) && Boundary(Joined(c), j)
    ensures 0 < k <= |c| && Joined(c[..k]) == Joined(c)[..j]
  {
    var front, last, s := c[..|c| - 1], c[|c| - 1], Joined(c);
    assert c == front + [last];
    JoinedStep(front, last);
    if j == |s| {
      k := |c|;
      assert c[..k] == c && s[..j] == s;
    } else {
      SlashNoLater(s, Joined(front), last, j);
      assert s[j - 1] == Joined(front)[j - 1] && s[..j] == Joined(front)[..j];
      assert j < |Joined(front)| ==> s[j] == Joined(front)[j];
      k := BoundaryIsName(front, j);
      assert c[..k] == front[..k];
    }
  }

  /** A canonical path the tree has no link on: its fast answer is taken. The root
   file system's path is as realpath spells it. */
  lemma {:induction false} CleanIsAccepted(env: Env, c: seq<string>, h: string, fl: Flags, path: string)
    requires EnvOk(env) && AllNormal(c) && c != [] && !InZone(env, Spell(c)) && Map(env, Spell(c)) == Mapped(h, true)
    requires env.rootfs == "" || env.rootfs[|env.rootfs| - 1] != '/'
    requires |c| > 1 || Map(env, "/") == Mapped(if env.rootfs == "" then "/" else env.rootfs, true)
    requires !ProcHost(h) && forall k :: 0 < k <= |c| ==> env.link(HostAt(env, c[..k])).None?
    ensures Accepts(env, Resolved(c, h), fl, path)
  {
    hide Joined, InZone, WantsDir, Map, EnvOk, In, ProcHost;
    PlainPrefix(env, c, |c|);
    assert c[..|c|] == c;
    var p := Parent(c);
    var dir := if p == [] then (if env.rootfs == "" then "/" else env.rootfs) else HostAt(env, p);
    if p != [] { PlainPrefix(env, c, |c| - 1); }
    assert Map(env, Spell(p)) == Mapped(dir, true);
    JoinsUp(env, c, dir, h);
    ProcBelow(dir, c[|c| - 1]);
    if p == [] {
      RootIsTrusted(env, dir);
    } else {
      forall j | TrustedLen(env, dir) < j <= |dir| && Boundary(dir, j) ensures env.link(dir[..j]).None? {
        Prefixed(env, p, dir, j);
        var k :| 0 < k <= |p| && dir[..j] == HostAt(env, p[..k]);
        assert p[..k] == c[..k];
      }
    }
  }

  lemma {:induction false} JoinsUp(env: Env, c: seq<string>, dir: string, h: string)
    requires c != [] && h == HostAt(env, c) && (env.rootfs == "" || env.rootfs[|env.rootfs| - 1] != '/') && Names(c)
    requires dir == if Parent(c) == [] then (if env.rootfs == "" then "/" else env.rootfs) else HostAt(env, Parent(c))
    ensures JoinName(dir, c[|c| - 1]) == h
  {
    hide Joined;
    var p, last := Parent(c), c[|c| - 1];
    assert c == p + [last];
    JoinedStep(p, last);
    assert Joined([]) == "" by { NoText(); }
    if p != [] {
      EndsInName(p);
      assert dir[|dir| - 1] == Joined(p)[|Joined(p)| - 1];
    }
    assert env.rootfs + (Joined(p) + "/" + last) == env.rootfs + Joined(p) + "/" + last;
  }

  lemma {:induction false} EndsInName(p: seq<string>)
    requires Names(p) && p != []
    ensures Joined(p) != "" && Joined(p)[|Joined(p)| - 1] != '/'
  {
    hide Joined;
    var f, x := p[..|p| - 1], p[|p| - 1];
    assert p == f + [x];
    JoinedStep(f, x);
    assert Joined(p)[|Joined(p)| - 1] == x[|x| - 1] && x[|x| - 1] in x;
  }

  /** What is in a directory of the host's /proc is in it too. */
  lemma {:induction false} ProcBelow(dir: string, name: string)
    requires Name(name)
    ensures ProcHost(dir) ==> ProcHost(JoinName(dir, name))
  {
    var h := JoinName(dir, name);
    if ProcHost(dir) {
      var cut := if dir[|dir| - 1] == '/' then dir[..|dir| - 1] else dir;
      assert |cut| >= 5 && cut[..5] == dir[..5] && h == cut + "/" + name;
      assert h[..5] == cut[..5];
      assert h[5] == if |cut| == 5 then '/' else cut[5];
    }
  }

  lemma {:induction false} RootIsTrusted(env: Env, dir: string)
    requires dir == (if env.rootfs == "" then "/" else env.rootfs) && !ProcHost(dir)
    ensures TrustedLen(env, dir) >= |dir|
  {
  }

  /** Past what is trusted, the parent's host path is its names'. */
  lemma {:induction false} Prefixed(env: Env, p: seq<string>, dir: string, j: int)
    requires Names(p) && p != [] && dir == HostAt(env, p)
    requires TrustedLen(env, dir) < j <= |dir| && Boundary(dir, j) && !ProcHost(dir)
    ensures exists k :: 0 < k <= |p| && dir[..j] == HostAt(env, p[..k])
  {
    hide Joined;
    var i := j - |env.rootfs|;
    assert In(env.rootfs, dir) by {
      JoinedPrefix(p, 0);
      assert p[..0] == [] && Joined([]) == "" by { NoText(); }
      assert dir[..|env.rootfs|] == env.rootfs;
    }
    assert Joined(p)[..i] == dir[|env.rootfs|..j];
    assert i < |Joined(p)| ==> Joined(p)[i] == dir[j];
    assert Joined(p)[i - 1] == dir[j - 1];
    var k := BoundaryIsName(p, i);
    assert dir[..j] == env.rootfs + Joined(p)[..i];
  }
}
