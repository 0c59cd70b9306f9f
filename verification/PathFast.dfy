/**
 The optimistic route of path_resolve_pin: a walk that asks about no link, and
 the pin that certifies there was none to ask about. It is only ever a shortcut
 to the answer of the full walk.
 */
module PathFast {
  import opened Options
  import opened PathNames
  import opened PathWalk
  import BindTable

  // ------------------------------------------------------------ the pin

  /** host_trusted_root below no mount: how much of a host path is host-owned, 0
   for never pin. */
  function TrustedLen(env: Env, host: string): nat {
    if ProcHost(host) then 0
    else if env.rootfs != "" && In(env.rootfs, host) then |env.rootfs|
    else if |host| >= 5 && host[..5] == "/dev/" then 4
    else if env.rootfs != "" then |env.rootfs| else 1
  }

  /** The end of a component of a host path. */
  predicate Boundary(host: string, j: int) { 0 < j <= |host| && host[j - 1] != '/' && (j == |host| || host[j] == '/') }

  /** pin_walk succeeds: nothing below the trusted part is a link. */
  predicate PinWalks(env: Env, host: string, trusted: nat) {
    forall j :: trusted < j <= |host| && Boundary(host, j) ==> env.link(host[..j]).None?
  }

  function JoinName(dir: string, name: string): string {
    (if dir != "" && dir[|dir| - 1] == '/' then dir[..|dir| - 1] else dir) + "/" + name
  }

  /** path_pin pins: the parent maps where the path does, is no part of /proc,
   and was walked without meeting a link. */
  predicate Pinned(env: Env, c: seq<string>, host: string) {
    && c != [] && Map(env, Spell(Parent(c))).Mapped?
    && var dir := Map(env, Spell(Parent(c))).host;
       && TrustedLen(env, dir) != 0 && JoinName(dir, c[|c| - 1]) == host
       && PinWalks(env, dir, TrustedLen(env, dir))
  }

  /** What path_resolve_pin asks of a fast answer before it takes it. */
  predicate Accepts(env: Env, r: Walked, fl: Flags, path: string)
    requires r.Resolved?
  {
    && (r.canon == [] || Pinned(env, r.canon, r.host))
    && ((fl.nofollow && !WantsDir(path)) || r.canon == [] || env.link(r.host).None?)
  }

  /** With the host's own root as the root file system and no /dev zone, the
   pin trusts the host's /dev by name: it has to be no link. */
  predicate TrustedClean(env: Env) { env.rootfs == "" && env.noDev ==> env.link("/dev").None? }

  predicate BelowDev(c: seq<string>) { |c| >= 3 && c[0] == "dev" }

  /** An answer whose first `n` components were not walked does not rest on that
   trust, and neither does one whose parent is /dev itself. */
  predicate Trusted(env: Env, n: nat, c: seq<string>) { TrustedClean(env) || n > 0 || !BelowDev(c) }

  /** The names in a text, "." and ".." left out. */
  function Folded(s: string): seq<string>
    decreases |s|
  {
    if Skip(s) == "" then []
    else (if Component(s) == "." || Component(s) == ".." then [] else [Component(s)]) + Folded(After(s))
  }

  function StartsAt(top: seq<string>, from: seq<string>, path: string): seq<string> {
    if path != "" && path[0] == '/' then top else from
  }

  /** A walk from "/" into the host's /dev and further down, where that name is a
   link and the pin trusts it. */
  predicate LinkedDev(env: Env, top: seq<string>, from: seq<string>, path: string) {
    !TrustedClean(env) && StartsAt(top, from, path) == [] && BelowDev(Folded(path))
  }

  // ------------------------------------------------------------ prefixes

  lemma {:induction false} InPrefix(dir: string, p: string, q: string)
    requires In(dir, p) && In(p, q)
    ensures In(dir, q)
  {
    assert p[..|dir|] == q[..|p|][..|dir|] == q[..|dir|];
  }

  /** A component prefix of a canonical path contains it. */
  lemma {:induction false} SpellPrefix(c: seq<string>, k: nat)
    requires 0 < k <= |c|
    ensures In(Spell(c[..k]), Spell(c)) && |Spell(c[..k])| <= |Spell(c)|
  {
    JoinedPrefix(c, k);
    assert k == |c| ==> c[..k] == c;
  }

  /** A path mapped plainly has no prefix covered by a mount. */
  lemma {:induction false} NoMountAbove(ms: seq<BindTable.Mount>, c: seq<string>, k: nat)
    requires 0 < k <= |c| && BindTable.Uncovered(ms, Spell(c))
    ensures BindTable.Uncovered(ms, Spell(c[..k]))
  {
    SpellPrefix(c, k);
    forall j | 0 <= j < |ms|
      ensures !BindTable.Covers(ms[j].guest, Spell(c[..k]))
    {
      if BindTable.Covers(ms[j].guest, Spell(c[..k])) {
        InPrefix(ms[j].guest, Spell(c[..k]), Spell(c));
        assert BindTable.Covers(ms[j].guest, Spell(c));
        assert false;
      }
    }
  }

  lemma {:induction false} ZonePrefix(env: Env, c: seq<string>, k: nat)
    requires 0 < k <= |c| && InZone(env, Spell(c[..k]))
    ensures InZone(env, Spell(c))
  {
    SpellPrefix(c, k);
    hide Spell;
    if In("/dev", Spell(c[..k])) { InPrefix("/dev", Spell(c[..k]), Spell(c)); }
    if In("/proc", Spell(c[..k])) { InPrefix("/proc", Spell(c[..k]), Spell(c)); }
  }

  function HostAt(env: Env, c: seq<string>): string { env.rootfs + Joined(c) }

  lemma {:induction false} UncoveredNone(ms: seq<BindTable.Mount>, path: string)
    requires BindTable.Uncovered(ms, path)
    ensures Winner(ms, path).None?
  {
  }

  /** ...so its prefixes map plainly too, to the same directory. */
  lemma {:induction false} PlainPrefix(env: Env, c: seq<string>, k: nat)
    requires EnvOk(env) && Names(c) && 0 < k <= |c| && !InZone(env, Spell(c))
    requires Map(env, Spell(c)).Mapped? && Map(env, Spell(c)).plain
    ensures Map(env, Spell(c[..k])) == Mapped(HostAt(env, c[..k]), true)
  {
    hide Joined, InZone;
    NoMountAbove(env.mounts, c, k);
    UncoveredNone(env.mounts, Spell(c[..k]));
    if InZone(env, Spell(c[..k])) { ZonePrefix(env, c, k); assert false; }
    SpellPrefix(c, k);
    assert Names(c[..k]);
    SpellLength(c[..k]);
  }

  // ------------------------------------------------------------ the fast walk only adds

  predicate Extends(c: seq<string>, p: seq<string>) { |p| <= |c| && c[..|p|] == p }

  /** A fast step either leaves the path alone or adds a name. */
  lemma {:induction false} FastStep(env: Env, top: seq<string>, fl: Flags, st: St)
    requires Skip(st.rest) != "" && st.links <= MAX_LINKS
    ensures var o, comp := Step(env, top, fl, true, st), Component(st.rest);
            o.Go? ==>
              && o.st.rest == After(st.rest) && o.st.wantDir == st.wantDir && o.st.links == st.links
              && (if comp == "." || comp == ".." then o.st.canon == st.canon
                  else o.st.canon == st.canon + [comp] && !InZone(env, Spell(o.st.canon)))
  {
    hide Map, InZone, Component, After, Skip, Span, Joined, WantsDir;
  }

  /** How a fast walk from `st` ended. */
  ghost predicate FastEnds(env: Env, top: seq<string>, fl: Flags, st: St, c: seq<string>, h: string) {
    st.links <= MAX_LINKS && Walk(env, top, fl, true, st) == Resolved(c, h)
  }

  lemma {:induction false} FastGrows(env: Env, top: seq<string>, fl: Flags, st: St, c: seq<string>, h: string)
    requires FastEnds(env, top, fl, st, c, h)
    ensures Extends(c, st.canon) && !st.wantDir && Map(env, Spell(c)) == Mapped(h, true)
    ensures Skip(st.rest) == "" ==> c == st.canon
    decreases |st.rest|
  {
    hide Step, Map, Component, After, Skip;
    if Skip(st.rest) != "" {
      var o := Step(env, top, fl, true, st);
      FastStep(env, top, fl, st);
      FastGrows(env, top, fl, o.st, c, h);
    }
  }

  lemma {:induction false} FoldedStep(s: string)
    ensures Skip(s) == "" ==> Folded(s) == []
    ensures Skip(s) != "" ==>
              Folded(s) == (if Component(s) == "." || Component(s) == ".." then [] else [Component(s)]) + Folded(After(s))
  {
    hide Skip, Component, After;
  }

  /** What it adds are the names of the text. */
  lemma {:induction false} FastFolds(env: Env, top: seq<string>, fl: Flags, st: St, c: seq<string>, h: string)
    requires FastEnds(env, top, fl, st, c, h)
    ensures c == st.canon + Folded(st.rest)
    decreases |st.rest|
  {
    hide Step, Map, Component, After, Skip, Folded, InZone, Spell;
    FoldedStep(st.rest);
    if Skip(st.rest) != "" {
      var o, comp, more := Step(env, top, fl, true, st), Component(st.rest), Folded(After(st.rest));
      FastStep(env, top, fl, st);
      FastFolds(env, top, fl, o.st, c, h);
      assert st.canon + ([comp] + more) == st.canon + [comp] + more && [] + more == more;
    } else {
      FastGrows(env, top, fl, st, c, h);
      assert st.canon + [] == st.canon;
    }
  }

  /** After a push, no prefix of the answer is in a zone. */
  lemma {:induction false} FastAvoidsZones(env: Env, top: seq<string>, fl: Flags, st: St, c: seq<string>, h: string)
    requires FastEnds(env, top, fl, st, c, h)
    ensures c == st.canon || !InZone(env, Spell(c))
    ensures forall k :: |st.canon| <= k < |c| ==> Name(c[k])
    decreases |st.rest|
  {
    hide Step, Map, Component, After, Skip, InZone, Name;
    FastGrows(env, top, fl, st, c, h);
    if Skip(st.rest) != "" {
      var o := Step(env, top, fl, true, st);
      FastStep(env, top, fl, st);
      FastGrows(env, top, fl, o.st, c, h);
      FastAvoidsZones(env, top, fl, o.st, c, h);
      if o.st.canon != st.canon {
        ComponentIsName(st.rest);
        assert c[|st.canon|] == c[..|o.st.canon|][|st.canon|] == Component(st.rest);
      }
    }
  }

  // ------------------------------------------------------------ a trailing "." asks for a directory

  lemma {:induction false} LastNameSuffix(s: string, n: nat)
    requires n <= |s| && '/' in s[n..]
    ensures LastName(s) == LastName(s[n..])
  {
    var t := s[n..];
    if s[|s| - 1] != '/' {
      assert t[..|t| - 1] == s[..|s| - 1][n..];
      assert t == t[..|t| - 1] + [s[|s| - 1]];
      LastNameSuffix(s[..|s| - 1], n);
    }
  }

  lemma {:induction false} LastNameWhole(s: string)
    requires '/' !in s
    ensures LastName(s) == s
  {
    if s != "" {
      assert s[|s| - 1] in s;
      assert forall x :: x in s[..|s| - 1] ==> x in s;
      LastNameWhole(s[..|s| - 1]);
    }
  }

  lemma {:induction false} SkipIsSuffix(s: string)
    ensures Skip(s) == s[|s| - |Skip(s)|..]
    ensures |Skip(s)| < |s| ==> s[|s| - |Skip(s)| - 1] == '/'
  {
    if s != "" && s[0] == '/' { SkipIsSuffix(s[1..]); }
  }

  /** What is left of a path after a component wants a directory as it did. */
  lemma {:induction false} WantsAfter(s: string)
    requires Skip(s) != ""
    ensures After(s) != "" ==> WantsDir(After(s)) == WantsDir(s)
    ensures After(s) == "" ==> (WantsDir(s) <==> Component(s) in {".", ".."})
  {
    SkipIsSuffix(s);
    var t := After(s);
    var n := |s| - |t|;
    assert t == s[n..];
    if t != "" {
      assert t[0] == '/';
      LastNameSuffix(s, n);
    } else {
      var c := Component(s);
      assert Skip(s) == c;
      var m := |s| - |c|;
      assert s[|s| - 1] == c[|c| - 1] && c[|c| - 1] in c;
      if m > 0 {
        assert s[m - 1..] == ['/'] + c;
        LastNameSuffix(s, m - 1);
        LastNameJoint(c);
      } else {
        assert s == c;
      }
      LastNameWhole(c);
    }
  }

  /** A canonical path ends in a name. */
  lemma {:induction false} WantsNoDir(cs: seq<string>)
    requires AllNormal(cs) && cs != []
    ensures !WantsDir(Joined(cs))
    decreases |cs|
  {
    FirstName(cs);
    WantsAfter(Joined(cs));
    if |cs| > 1 { WantsNoDir(cs[1..]); }
  }

  lemma {:induction false} LastNameJoint(c: string)
    requires '/' !in c
    ensures LastName(['/'] + c) == LastName(c)
  {
    var s := ['/'] + c;
    if c != "" {
      assert c[|c| - 1] in c;
      assert s[..|s| - 1] == ['/'] + c[..|c| - 1];
      assert forall x :: x in c[..|c| - 1] ==> x in c;
      LastNameJoint(c[..|c| - 1]);
    }
  }

  /** A fast walk with components to go that adds none of them is of a path that
   wants a directory. */
  lemma {:induction false} NothingAdded(env: Env, top: seq<string>, fl: Flags, st: St, h: string)
    requires FastEnds(env, top, fl, st, st.canon, h) && Skip(st.rest) != ""
    ensures WantsDir(st.rest)
    decreases |st.rest|
  {
    hide Step, Map, Component, After, Skip, WantsDir, InZone;
    var o := Step(env, top, fl, true, st);
    FastStep(env, top, fl, st);
    FastGrows(env, top, fl, o.st, st.canon, h);
    WantsAfter(st.rest);
    if Skip(o.st.rest) != "" {
      NothingAdded(env, top, fl, o.st, h);
      SkipNone(o.st.rest);
    } else if o.st.rest != "" {
      SlashesWant(o.st.rest);
    }
  }

  lemma {:induction false} SkipNone(s: string)
    requires Skip(s) != ""
    ensures s != ""
  {
  }

  lemma {:induction false} SlashesWant(s: string)
    requires s != "" && Skip(s) == ""
    ensures WantsDir(s)
  {
  }

  // ------------------------------------------------------------ what is certified

  /** No directory above the answer that the walk came through, past its first `n`
   components, is a link or in /proc, and the answer itself is no link the full
   walk would have followed. */
  ghost predicate Certified(env: Env, n: nat, c: seq<string>, h: string, fl: Flags) {
    && (forall k :: n < k < |c| ==> env.link(HostAt(env, c[..k])).None? && !ProcHost(HostAt(env, c[..k])))
    && (fl.nofollow || c == [] || env.link(h).None?)
    && env.magic(h) == NoMagic
  }

  /** What the pin says about a path mapped plainly. */
  lemma {:induction false} PinCertifies(env: Env, n: nat, c: seq<string>, h: string, fl: Flags, path: string)
    requires EnvOk(env) && Trusted(env, n, c) && Names(c) && c != [] && !InZone(env, Spell(c)) && !WantsDir(path)
    requires Map(env, Spell(c)) == Mapped(h, true) && Accepts(env, Resolved(c, h), fl, path)
    ensures Certified(env, n, c, h, fl)
  {
    hide Joined, InZone, WantsDir, Map, EnvOk;
    var dir := Map(env, Spell(Parent(c))).host;
    forall k | n < k < |c|
      ensures env.link(HostAt(env, c[..k])).None? && !ProcHost(HostAt(env, c[..k]))
    {
      PlainPrefix(env, c, |c| - 1);
      PrefixCertified(env, n, c, dir, k);
    }
    NotMagic(env, dir, c[|c| - 1], h);
  }

  /** The host path of a prefix ends at a component of the parent's. */
  lemma {:induction false} PrefixBoundary(env: Env, c: seq<string>, dir: string, k: nat)
    requires Names(c) && 0 < k < |c| && dir == HostAt(env, Parent(c))
    ensures var q := HostAt(env, c[..k]);
            |q| <= |dir| && dir[..|q|] == q && In(q, dir) && Boundary(dir, |q|) && |q| >= |env.rootfs| + 2 && In(env.rootfs, dir)
  {
    var q, up := HostAt(env, c[..k]), Parent(c);
    assert up[..k] == c[..k];
    JoinedPrefix(up, k);
    assert k == |up| ==> up[..k] == up;
    NameEnds(env, c[..k]);
    assert dir[..|q|] == q;
    RootContains(env, up);
  }

  lemma {:induction false} PrefixCertified(env: Env, n: nat, c: seq<string>, dir: string, k: nat)
    requires Names(c) && n < k < |c| && dir == HostAt(env, Parent(c)) && !ProcHost(dir) && Trusted(env, n, c)
    requires PinWalks(env, dir, TrustedLen(env, dir)) && !InZone(env, Spell(c))
    ensures env.link(HostAt(env, c[..k])).None? && !ProcHost(HostAt(env, c[..k]))
  {
    hide Joined, Boundary;
    var q := HostAt(env, c[..k]);
    PrefixBoundary(env, c, dir, k);
    if ProcHost(q) { InPrefix("/proc", q, dir); assert false; }
    if |q| <= TrustedLen(env, dir) {
      DevOnly(c[..k], dir);
      assert Joined(["dev"]) == "/dev" by { DevSpelled(); }
      JoinedInjective(c[..k], ["dev"]);
      assert c[0] == c[..k][0];
      assert |c| == 2 ==> Parent(c) == c[..k];
      SpellPrefix(c, k);
      assert In("/dev", Spell(c));
    }
  }

  lemma {:induction false} DevSpelled()
    ensures Joined(["dev"]) == "/dev" && Spell(["dev"]) == "/dev"
  {
    assert ["dev"][..0] == [];
  }

  lemma {:induction false} NameEnds(env: Env, c: seq<string>)
    requires Names(c) && c != []
    ensures |HostAt(env, c)| >= |env.rootfs| + 2 && HostAt(env, c)[|HostAt(env, c)| - 1] != '/'
  {
    var last := c[|c| - 1];
    assert last[|last| - 1] in last;
  }

  lemma {:induction false} RootContains(env: Env, c: seq<string>)
    requires Names(c) && c != []
    ensures In(env.rootfs, HostAt(env, c))
  {
    JoinedPrefix(c, 0);
    assert c[..0] == [];
    SpellLength(c);
  }

  lemma {:induction false} DevOnly(c: seq<string>, dir: string)
    requires Names(c) && c != [] && |Joined(c)| <= 4 && |dir| >= 5 && dir[..5] == "/dev/" && In(Joined(c), dir)
    ensures Joined(c) == "/dev"
  {
    SpellLength(c);
    var n := |Joined(c)|;
    assert dir[n] == '/' && dir[..5][n] == "/dev/"[n];
    assert n == 4;
    assert Joined(c) == dir[..5][..4];
  }

  /** A name has no slash: what it completes to a /proc path was in /proc. */
  lemma {:induction false} ProcParent(d: string, name: string, h: string)
    requires Name(name) && h == d + "/" + name && |h| >= 6 && h[..6] == "/proc/"
    ensures In("/proc", d)
  {
    assert h[5] == h[..6][5];
    assert |d| >= 5 by {
      assert forall i :: |d| < i < |h| ==> h[i] == name[i - |d| - 1] && h[i] in name;
    }
    assert d[..5] == h[..6][..5];
  }

  lemma {:induction false} NotMagic(env: Env, dir: string, name: string, h: string)
    requires EnvOk(env) && !ProcHost(dir) && Name(name) && h == JoinName(dir, name)
    ensures env.magic(h) == NoMagic
  {
    var d := if dir != "" && dir[|dir| - 1] == '/' then dir[..|dir| - 1] else dir;
    if env.magic(h) != NoMagic {
      ProcParent(d, name, h);
      assert false;
    }
  }

  // ------------------------------------------------------------ the full walk goes the same way

  /** One name the fast walk added: the full walk looks, finds no link, and adds
   it too. */
  lemma {:induction false} SlowDown(env: Env, top: seq<string>, fl: Flags, st: St, comp: string, n: nat, c: seq<string>, h: string)
    requires EnvOk(env) && Names(c) && n <= |st.canon| && Certified(env, n, c, h, fl) && !InZone(env, Spell(c))
    requires Map(env, Spell(c)) == Mapped(h, true) && Extends(c, st.canon + [comp]) && !st.wantDir
    requires Down(env, top, fl, true, st, comp).Go?
    requires c == st.canon + [comp] && fl.nofollow ==> AllSlashes(st.rest)
    ensures Down(env, top, fl, false, st, comp) == Down(env, top, fl, true, st, comp)
  {
    hide Joined, AllSlashes, Map, InZone, WantsDir, Splice, EnvOk;
    var pushed := st.canon + [comp];
    assert pushed == c[..|pushed|];
    PlainPrefix(env, c, |pushed|);
    MagicFree(env, pushed, c);
    if pushed == c {
      assert c[..|c|] == c;
    }
  }

  lemma {:induction false} MagicFree(env: Env, pushed: seq<string>, c: seq<string>)
    requires EnvOk(env) && pushed != [] && Extends(c, pushed) && !InZone(env, Spell(c))
    ensures env.magic(Spell(pushed)) == NoMagic
  {
    if env.magic(Spell(pushed)) != NoMagic {
      var p := Spell(pushed);
      assert p[..5] == p[..6][..5] == "/proc" && p[5] == p[..6][5] == '/';
      assert InZone(env, p);
      ZonePrefix(env, c, |pushed|);
      assert false;
    }
  }

  lemma {:induction false} SlowStep(env: Env, top: seq<string>, fl: Flags, st: St, n: nat, c: seq<string>, h: string)
    requires EnvOk(env) && Names(c) && n <= |st.canon| && Certified(env, n, c, h, fl) && FastEnds(env, top, fl, st, c, h)
    requires Skip(st.rest) != "" && !WantsDir(st.rest)
    ensures Step(env, top, fl, false, st) == Step(env, top, fl, true, st)
    ensures var o := Step(env, top, fl, true, st); o.Go? && (Skip(o.st.rest) != "" ==> !WantsDir(o.st.rest))
  {
    hide Map, Component, After, Skip, WantsDir, InZone, Certified, Down, Walk, AllSlashes, EnvOk;
    var o := Step(env, top, fl, true, st);
    assert o.Go? && FastEnds(env, top, fl, o.st, c, h) by { FastContinues(env, top, fl, st, c, h); }
    FastStep(env, top, fl, st);
    FastGrows(env, top, fl, st, c, h);
    FastGrows(env, top, fl, o.st, c, h);
    WantsAfter(st.rest);
    if Skip(o.st.rest) != "" { SkipNone(o.st.rest); }
    var comp, next := Component(st.rest), st.(rest := After(st.rest));
    if comp != "." && comp != ".." {
      FastAvoidsZones(env, top, fl, st, c, h);
      if c == st.canon + [comp] && Skip(o.st.rest) != "" {
        NothingAdded(env, top, fl, o.st, h);
        assert false;
      }
      SlashesLeft(next.rest);
      SlowDown(env, top, fl, next, comp, n, c, h);
    }
  }

  lemma {:induction false} SlashesLeft(s: string)
    ensures Skip(s) == "" <==> AllSlashes(s)
  {
  }

  lemma {:induction false} FastContinues(env: Env, top: seq<string>, fl: Flags, st: St, c: seq<string>, h: string)
    requires FastEnds(env, top, fl, st, c, h) && Skip(st.rest) != ""
    ensures var o := Step(env, top, fl, true, st); o.Go? && FastEnds(env, top, fl, o.st, c, h)
  {
    hide Step, Skip;
  }

  lemma {:induction false} SlowFollows(env: Env, top: seq<string>, fl: Flags, st: St, n: nat, c: seq<string>, h: string)
    requires EnvOk(env) && Names(c) && n <= |st.canon| && Certified(env, n, c, h, fl) && FastEnds(env, top, fl, st, c, h)
    requires Skip(st.rest) != "" ==> !WantsDir(st.rest)
    ensures Walk(env, top, fl, false, st) == Resolved(c, h)
    decreases |st.rest|
  {
    hide Step, Skip, WantsDir, Map, Certified, EnvOk;
    if Skip(st.rest) != "" {
      SlowStep(env, top, fl, st, n, c, h);
      FastContinues(env, top, fl, st, c, h);
      FastStep(env, top, fl, st);
      var o := Step(env, top, fl, true, st);
      SlowFollows(env, top, fl, o.st, n, c, h);
    }
  }

  /** On a fixed tree, a fast answer that the pin and the final check accept is
   the answer of the full walk. */
  lemma {:induction false} FastRefinesSlow(env: Env, top: seq<string>, from: seq<string>, gone: bool, path: string, fl: Flags)
    requires EnvOk(env) && Names(top) && Names(from)
    ensures var r := Resolve(env, top, from, gone, path, fl, true);
            r.Resolved? && Accepts(env, r, fl, path) && !LinkedDev(env, top, from, path)
            ==> Resolve(env, top, from, gone, path, fl, false) == r
  {
    hide Step, Skip, WantsDir, Map, EnvOk, Walk, Accepts, InZone, TrustedClean;
    var r := Resolve(env, top, from, gone, path, fl, true);
    if r.Resolved? && Accepts(env, r, fl, path) && !LinkedDev(env, top, from, path) {
      var st := Start(top, from, gone, path);
      FastFolds(env, top, fl, st, r.canon, r.host);
      FastGrows(env, top, fl, st, r.canon, r.host);
      FastAvoidsZones(env, top, fl, st, r.canon, r.host);
      assert Names(r.canon) by {
        forall i | 0 <= i < |r.canon| ensures Name(r.canon[i]) {
          if i < |st.canon| { assert r.canon[i] == r.canon[..|st.canon|][i] == st.canon[i]; }
        }
      }
      if r.canon == st.canon {
        if Skip(st.rest) != "" {
          NothingAdded(env, top, fl, st, r.host);
          assert false;
        }
        NothingToDo(env, top, fl, st);
      } else {
        PinCertifies(env, |st.canon|, r.canon, r.host, fl, path);
        SlowFollows(env, top, fl, st, |st.canon|, r.canon, r.host);
      }
    }
  }

  lemma {:induction false} NothingToDo(env: Env, top: seq<string>, fl: Flags, st: St)
    requires Skip(st.rest) == "" && st.links <= MAX_LINKS && Walk(env, top, fl, true, st).Resolved?
    ensures Walk(env, top, fl, false, st) == Walk(env, top, fl, true, st)
  {
  }

  // ------------------------------------------------------------ where it would not

  /** Not below /dev, or at it with nothing left to read. */
  predicate OffDev(c: seq<string>, rest: string) {
    c == [] || c[0] != "dev" || (c == ["dev"] && Skip(rest) == "")
  }

  lemma {:induction false} DevMaps(env: Env)
    requires EnvOk(env) && !TrustedClean(env) && BindTable.Uncovered(env.mounts, "/dev")
    ensures Spell(["dev"]) == "/dev" && Map(env, "/dev") == Mapped("/dev", true) && env.magic("/dev") == NoMagic
  {
    UncoveredNone(env.mounts, "/dev");
    assert ["dev"][..0] == [];
    assert Spell(["dev"]) == "/dev";
    assert !In("/proc", "/dev");
  }

  lemma {:induction false} OffDevStep(env: Env, fl: Flags, st: St)
    requires EnvOk(env) && !TrustedClean(env) && BindTable.Uncovered(env.mounts, "/dev")
    requires st.links <= MAX_LINKS && Skip(st.rest) != "" && OffDev(st.canon, st.rest)
    ensures var o := Step(env, [], fl, false, st); o.Go? && !Unlinks(st, o) ==> OffDev(o.st.canon, o.st.rest)
  {
    hide Map, Component, After, Skip, WantsDir, AllSlashes, EnvOk, Joined, Spell, DepthOf;
    var comp, next := Component(st.rest), st.(rest := After(st.rest));
    assert forall x: string :: AllSlashes(x) ==> Skip(x) == "" by {
      forall x: string ensures AllSlashes(x) ==> Skip(x) == "" { SlashesLeft(x); }
    }
    if st.canon == [] && comp == "dev" {
      DevMaps(env);
      assert [] + [comp] == ["dev"];
      assert !ProcHost("/dev");
    }
  }

  lemma {:induction false} NeverBelowDev(env: Env, fl: Flags, st: St)
    requires EnvOk(env) && !TrustedClean(env) && BindTable.Uncovered(env.mounts, "/dev")
    requires st.links <= MAX_LINKS && OffDev(st.canon, st.rest) && !WalkUnlinks(env, [], fl, false, st)
    ensures var r := Walk(env, [], fl, false, st); r.Resolved? ==> r.canon == [] || r.canon[0] != "dev" || |r.canon| == 1
    decreases MAX_LINKS - st.links, |st.rest|
  {
    hide Step, Skip, Map, EnvOk, TrustedClean;
    if Skip(st.rest) != "" {
      OffDevStep(env, fl, st);
      var o := Step(env, [], fl, false, st);
      if o.Go? { NeverBelowDev(env, fl, o.st); }
    }
  }

  /** There, an accepted fast answer is wrong: the full walk follows the link, and
   never ends below it. */
  lemma {:induction false} LinkedDevDiverges(env: Env, top: seq<string>, from: seq<string>, gone: bool, path: string, fl: Flags)
    requires EnvOk(env) && Extends(StartsAt(top, from, path), top)
    requires !WalkUnlinks(env, top, fl, false, Start(top, from, gone, path))
    ensures var r := Resolve(env, top, from, gone, path, fl, true);
            r.Resolved? && Accepts(env, r, fl, path) && LinkedDev(env, top, from, path)
            ==> Resolve(env, top, from, gone, path, fl, false) != r
  {
    hide Walk, WalkUnlinks, EnvOk, Map, Accepts, WantsDir, DepthOf, TrustedClean, Folded;
    var r, st := Resolve(env, top, from, gone, path, fl, true), Start(top, from, gone, path);
    if r.Resolved? && LinkedDev(env, top, from, path) {
      assert top == [];
      FastFolds(env, top, fl, st, r.canon, r.host);
      FastGrows(env, top, fl, st, r.canon, r.host);
      assert r.canon == Folded(path);
      DevUncovered(env, r.canon, r.host);
      NeverBelowDev(env, fl, st);
    }
  }

  lemma {:induction false} DevUncovered(env: Env, c: seq<string>, h: string)
    requires BelowDev(c) && Map(env, Spell(c)) == Mapped(h, true)
    ensures BindTable.Uncovered(env.mounts, "/dev")
  {
    hide Joined, Spell;
    NoMountAbove(env.mounts, c, 1);
    DevSpelled();
    assert c[..1] == ["dev"];
  }

  /** From any place at or below any root: an accepted answer is the full walk's
   if and only if it did not walk into a linked /dev. */
  lemma {:induction false} FastIsRightWhen(env: Env, top: seq<string>, from: seq<string>, gone: bool, path: string, fl: Flags)
    requires EnvOk(env) && Names(top) && Names(from) && Extends(StartsAt(top, from, path), top)
    requires !WalkUnlinks(env, top, fl, false, Start(top, from, gone, path))
    ensures var r := Resolve(env, top, from, gone, path, fl, true);
            r.Resolved? && Accepts(env, r, fl, path) ==>
            (Resolve(env, top, from, gone, path, fl, false) == r <==> !LinkedDev(env, top, from, path))
  {
    hide Resolve, Accepts, LinkedDev, EnvOk, WalkUnlinks;
    FastRefinesSlow(env, top, from, gone, path, fl);
    LinkedDevDiverges(env, top, from, gone, path, fl);
  }

  // ------------------------------------------------------------ such a walk

  /** The host's own root, no zones, no mounts, and /dev a link to /realdev. */
  function LinkedEnv(): Env {
    Env("", [], true, true, (c: string) => None, (c: string) => NoMagic,
        (h: string) => if h == "/dev" then Some("/realdev") else None, (h: string) => Directory, (t: string) => None)
  }

  lemma {:induction false} NothingUnlinked(env: Env, top: seq<string>, fl: Flags, fast: bool, st: St)
    requires st.links <= MAX_LINKS && forall c :: !env.magic(c).Unlinked?
    ensures !WalkUnlinks(env, top, fl, fast, st)
    decreases MAX_LINKS - st.links, |st.rest|
  {
    hide Step, Skip;
    if Skip(st.rest) != "" {
      var o := Step(env, top, fl, fast, st);
      if Unlinks(st, o) { var c := UnlinksWhere(env, top, fl, fast, st); assert false; }
      if o.Go? { NothingUnlinked(env, top, fl, fast, o.st); }
    }
  }

  /** The fast walk answers every canonical path that maps plainly. */
  lemma {:induction false} FastAnswers(env: Env, top: seq<string>, fl: Flags, c: seq<string>, k: nat, st: St, h: string)
    requires AllNormal(c) && |Spell(c)| + 1 <= PATH_MAX && k <= |c| && (c != [] ==> |c[0]| + 3 <= PATH_MAX)
    requires (c != [] ==> !InZone(env, Spell(c))) && Map(env, Spell(c)) == Mapped(h, true)
    requires st.canon == c[..k] && st.rest == Joined(c[k..]) && st.links <= MAX_LINKS && !st.wantDir && !st.gone
    ensures Walk(env, top, fl, true, st) == Resolved(c, h)
    decreases |c| - k
  {
    hide Map, Spell, Joined, Skip, Span, InZone;
    if k < |c| {
      FirstName(c[k..]);
      assert c[k..][1..] == c[k + 1..] && c[..k] + [c[k]] == c[..k + 1] && Normal(c[k]);
      PushFits(c, k);
      if InZone(env, Spell(c[..k + 1])) { ZonePrefix(env, c, k + 1); assert false; }
      FastAnswers(env, top, fl, c, k + 1, Step(env, top, fl, true, st).st, h);
    } else {
      assert c[..k] == c && c[k..] == [];
      assert Skip(Joined([])) == "" by { NothingLeft(); }
    }
  }

  lemma {:induction false} NothingLeft()
    ensures Joined([]) == "" && Skip("") == ""
  {
  }

  const XY := ["dev", "x", "y"]

  lemma {:induction false} SpellsXY()
    ensures Spell(XY) == "/dev/x/y" && Spell(["dev", "x"]) == "/dev/x" && XY[..2] == ["dev", "x"]
  {
    JoinedStep([], "dev");
    JoinedStep(["dev"], "x");
    JoinedStep(["dev", "x"], "y");
    assert [] + ["dev"] == ["dev"] && ["dev"] + ["x"] == ["dev", "x"] && ["dev", "x"] + ["y"] == XY;
    assert Joined(XY) == "/dev" + "/x" + "/y";
  }

  lemma {:induction false} MapsXY()
    ensures Map(LinkedEnv(), "/dev/x/y") == Mapped("/dev/x/y", true) && Map(LinkedEnv(), "/dev/x") == Mapped("/dev/x", true)
    ensures EnvOk(LinkedEnv()) && !InZone(LinkedEnv(), "/dev/x/y") && !TrustedClean(LinkedEnv())
  {
  }

  lemma {:induction false} FastXY(fl: Flags)
    ensures Resolve(LinkedEnv(), [], [], false, "/dev/x/y", fl, true) == Resolved(XY, "/dev/x/y")
  {
    hide Walk, Joined, Spell, Map, LinkedEnv, DepthOf, WantsDir, InZone;
    SpellsXY();
    MapsXY();
    assert XY[..0] == [] && XY[0..] == XY;
    WantsNoDir(XY);
    assert Joined(XY) == Spell(XY) by { SpellIsJoined(XY); }
    FastAnswers(LinkedEnv(), [], fl, XY, 0, Start([], [], false, "/dev/x/y"), "/dev/x/y");
  }

  lemma {:induction false} SpellIsJoined(c: seq<string>)
    requires c != []
    ensures Spell(c) == Joined(c)
  {
  }

  lemma {:induction false} AcceptsXY(fl: Flags)
    ensures Accepts(LinkedEnv(), Resolved(XY, "/dev/x/y"), fl, "/dev/x/y")
  {
    hide Joined, Spell, Map, WantsDir;
    SpellsXY();
    MapsXY();
    assert Parent(XY) == ["dev", "x"];
    assert "/dev/x"[..5] == "/dev/";
    assert JoinName("/dev/x", "y") == "/dev/x/y";
  }

  /** There the answer "/dev/x/y" is accepted, and the full walk's is another. */
  lemma {:induction false} LinkedDevAccepted(fl: Flags)
    ensures var env, r := LinkedEnv(), Resolve(LinkedEnv(), [], [], false, "/dev/x/y", fl, true);
            && EnvOk(env) && r == Resolved(XY, "/dev/x/y") && Accepts(env, r, fl, "/dev/x/y")
            && Resolve(env, [], [], false, "/dev/x/y", fl, false) != r
  {
    hide Walk, WalkUnlinks, Joined, Spell, Map, EnvOk, Accepts, Folded, DepthOf, WantsDir, TrustedClean;
    var env, st := LinkedEnv(), Start([], [], false, "/dev/x/y");
    MapsXY();
    FastXY(fl);
    AcceptsXY(fl);
    NothingUnlinked(env, [], fl, false, st);
    FastFolds(env, [], fl, st, XY, "/dev/x/y");
    assert Folded("/dev/x/y") == XY;
    LinkedDevDiverges(env, [], [], false, "/dev/x/y", fl);
  }
}
