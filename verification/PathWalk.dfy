/**
 Resolving a guest path under a root. The host file system, the /dev and /proc
 zones and the mounts do not change during a walk: they are functions the walk
 asks. A walk is a step per component; the resolver below runs it on buffers.
 */
module PathWalk {
  import opened Options
  import opened PathNames
  import BindTable

  datatype Errno = ENOENT | ENOTDIR | EISDIR | ELOOP | ENAMETOOLONG | Other(code: int)

  datatype Kind = Directory | NoDirectory | Missing(e: Errno)

  /** A /proc link the emulator answers itself: none, an error, a target, or the
   working directory, unlinked. */
  datatype Magic = NoMagic | Fails(e: Errno) | Leads(target: string) | Unlinked(path: seq<string>)

  /** `special` maps a zone path (special_host_path), `magic` is
   path_proc_magic, `link` and `kind` are readlink and stat of a host path, `view` is
   host_fd_guest_path. */
  datatype Env = Env(
    rootfs: string, mounts: seq<BindTable.Mount>, noDev: bool, noProc: bool,
    special: string -> Option<string>, magic: string -> Magic,
    link: string -> Option<string>, kind: string -> Kind, view: string -> Option<string>)

  /** `p` names this directory, or something in it. */
  predicate In(dir: string, p: string) {
    |dir| <= |p| && p[..|dir|] == dir && (|p| == |dir| || p[|dir|] == '/')
  }

  /** zone_prefix */
  predicate InZone(env: Env, canon: string) { (!env.noDev && In("/dev", canon)) || (!env.noProc && In("/proc", canon)) }

  /** proc_zone_path */
  predicate ProcHost(host: string) { In("/proc", host) }

  /** The zones are what they are called, and only /proc has magic links. */
  ghost predicate EnvOk(env: Env) {
    && (forall c :: env.special(c).Some? ==> InZone(env, c))
    && (forall c :: env.magic(c) != NoMagic ==> !env.noProc && |c| >= 6 && c[..6] == "/proc/")
    && (forall c :: env.magic(c).Unlinked? ==> Names(env.magic(c).path))
  }

  // ------------------------------------------------------------ where a canonical path is on the host

  /** The mount that covers a path: deepest, latest among equals. */
  function Winner(ms: seq<BindTable.Mount>, path: string): (k: Option<nat>)
    ensures k.None? ==> BindTable.Uncovered(ms, path)
    ensures k.Some? ==> BindTable.Wins(ms, path, k.value)
  {
    if ms == [] then None
    else
      var n := |ms| - 1;
      var w := Winner(ms[..n], path);
      if BindTable.Covers(ms[n].guest, path) && (w.None? || |ms[w.value].guest| <= |ms[n].guest|) then
        assert forall j :: 0 <= j < n ==> ms[..n][j] == ms[j];
        Some(n)
      else
        assert forall j :: 0 <= j < n ==> ms[..n][j] == ms[j];
        w
  }

  datatype Mapped = Mapped(host: string, plain: bool) | TooLong

  /** to_host */
  function RootHost(env: Env, canon: string): Mapped {
    if |env.rootfs| + |canon| + 1 > PATH_MAX then TooLong
    else
      var host := env.rootfs + if |canon| == 1 then "" else canon;
      Mapped(if host == "" then "/" else host, true)
  }

  /** canon_to_host: a mount, then a zone, then the root file system. A mount
   that leads back into the root file system is looked up in the zones again. */
  function Map(env: Env, canon: string): Mapped {
    match Winner(env.mounts, canon)
    case Some(k) =>
      var m := env.mounts[k];
      var host := m.host + canon[|m.guest|..];
      if |host| + 1 > PATH_MAX then TooLong
      else if env.rootfs != "" && In(env.rootfs, host) then
        var rel := if |host| == |env.rootfs| then "/" else host[|env.rootfs|..];
        Mapped(if env.special(rel).Some? then env.special(rel).value else host, false)
      else Mapped(host, false)
    case None =>
      if env.special(canon).Some? then Mapped(env.special(canon).value, false) else RootHost(env, canon)
  }

  // ------------------------------------------------------------ one component

  datatype Flags = Flags(nofollow: bool, creating: bool)

  /** What the walk has: the canonical path so far, the text still to read, the
   links followed, and how deep below the root it is. The first `trusted`
   components are the directory it started in. */
  datatype St = St(canon: seq<string>, rest: string, links: nat, depth: int, trusted: int, wantDir: bool, gone: bool)

  datatype Walked = Err(e: Errno) | Resolved(canon: seq<string>, host: string) | GaveUp

  datatype Outcome = Go(st: St) | Stop(r: Walked)

  const MAX_LINKS: nat := 40

  function Min(a: int, b: int): int { if a < b then a else b }

  /** ".." leaves a component, which has to be a directory unless the walk
   started in it. */
  function Up(env: Env, top: seq<string>, fast: bool, st: St): (o: Outcome)
    ensures o.Stop? ==> !o.r.Resolved?
    ensures o.Go? ==> o.st.links == st.links && o.st.rest == st.rest
  {
    if st.canon == top then Go(st.(gone := false))
    else if fast then Stop(GaveUp)
    else
      var up := Go(st.(canon := Parent(st.canon), depth := st.depth - 1, trusted := Min(st.trusted, st.depth - 1), gone := false));
      if st.depth <= st.trusted then up
      else match Map(env, Spell(st.canon))
        case TooLong => Stop(Err(ENAMETOOLONG))
        case Mapped(host, _) =>
          match env.kind(host)
          case Missing(e) => Stop(Err(e))
          case NoDirectory => Stop(Err(ENOTDIR))
          case Directory => up
  }

  /** A link's target takes the place of its name. */
  function Splice(top: seq<string>, st: St, target: string): (o: Outcome)
    ensures o.Stop? ==> o.r.Err?
    ensures o.Go? ==> o.st.links == st.links + 1 <= MAX_LINKS
  {
    if st.links + 1 > MAX_LINKS then Stop(Err(ELOOP))
    else if |target| + |st.rest| + 1 > PATH_MAX then Stop(Err(ENAMETOOLONG))
    else
      var rest := target + st.rest;
      var st' := st.(rest := rest, links := st.links + 1, wantDir := WantsDir(rest), gone := false);
      if target != "" && target[0] == '/' then Go(st'.(canon := top, depth := 0, trusted := 0))
      else Go(st'.(trusted := Min(st.trusted, st.depth)))
  }

  /** How deep below the root a path the host named is (canon_depth). */
  function DepthOf(top: seq<string>, canon: seq<string>): nat {
    var root, text := Spell(top), Spell(canon);
    if |root| > 1 && |root| <= |text| && text[..|root|] == root then Starts(text[|root|..]) else Starts(text)
  }

  /** A name that is at `host`: a link of the emulator's own, of the host's, or
   none. */
  function Follow(env: Env, top: seq<string>, st: St, comp: string, host: string): (o: Outcome)
    ensures o.Stop? ==> !o.r.Resolved?
    ensures o.Go? ==> (o.st.links == st.links && o.st.rest == st.rest) || o.st.links == st.links + 1 <= MAX_LINKS
  {
    var pushed := st.canon + [comp];
    var next := Go(st.(canon := pushed, depth := st.depth + 1, gone := false));
    var m := env.magic(Spell(pushed));
    var magic := if m == NoMagic && ProcHost(host) then env.magic(host) else m;
    match magic
    case Fails(e) => Stop(Err(e))
    case Leads(target) => Splice(top, st, target)
    case Unlinked(path) =>
      if st.links + 1 > MAX_LINKS then Stop(Err(ELOOP))
      else Go(st.(canon := path, links := st.links + 1, depth := DepthOf(top, path), trusted := DepthOf(top, path), gone := true))
    case NoMagic =>
      match env.link(host)
      case None => next
      case Some(target) =>
        if !ProcHost(host) then Splice(top, st, target)
        else if AllSlashes(st.rest) || target == "" || target[0] != '/' then next
        else match env.view(target)
          case None => Stop(Err(ENAMETOOLONG))
          case Some(v) => if |v| + 1 > PATH_MAX then Stop(Err(ENAMETOOLONG)) else Splice(top, st, v)
  }

  /** A name: pushed, and followed if it is a link. `st` has the text after it. */
  function Down(env: Env, top: seq<string>, fl: Flags, fast: bool, st: St, comp: string): (o: Outcome)
    ensures o.Stop? ==> !o.r.Resolved?
    ensures o.Go? ==> (o.st.links == st.links && o.st.rest == st.rest) || o.st.links == st.links + 1 <= MAX_LINKS
  {
    if |Spell(st.canon)| + 1 + |comp| + 1 > PATH_MAX then Stop(Err(ENAMETOOLONG))
    else
      var pushed := st.canon + [comp];
      var next := Go(st.(canon := pushed, depth := st.depth + 1, gone := false));
      if fast then (if InZone(env, Spell(pushed)) then Stop(GaveUp) else next)
      else if AllSlashes(st.rest) && fl.nofollow && !st.wantDir then next
      else match Map(env, Spell(pushed))
        case TooLong => Stop(Err(ENAMETOOLONG))
        case Mapped(host, _) => Follow(env, top, st, comp, host)
  }

  function Component(s: string): string { Skip(s)[..Span(Skip(s))] }

  function After(s: string): (r: string)
    ensures Skip(s) != "" ==> |r| < |s|
  {
    Skip(s)[Span(Skip(s))..]
  }

  function Step(env: Env, top: seq<string>, fl: Flags, fast: bool, st: St): (o: Outcome)
    requires Skip(st.rest) != "" && st.links <= MAX_LINKS
    ensures o.Stop? ==> !o.r.Resolved?
    ensures o.Go? ==> o.st.links <= MAX_LINKS && st.links <= o.st.links
    ensures o.Go? && o.st.links == st.links ==> |o.st.rest| < |st.rest|
  {
    var comp, next := Component(st.rest), st.(rest := After(st.rest));
    if |comp| >= PATH_MAX then Stop(Err(ENAMETOOLONG))
    else if comp == "." then Go(next)
    else if st.gone && comp != ".." then Stop(Err(ENOENT))
    else if comp == ".." then Up(env, top, fast, next)
    else Down(env, top, fl, fast, next, comp)
  }

  /** No component is left. */
  function Finish(env: Env, fl: Flags, fast: bool, st: St): Walked {
    if st.gone then (if fast then GaveUp else Resolved(st.canon, "."))
    else match Map(env, Spell(st.canon))
      case TooLong => Err(ENAMETOOLONG)
      case Mapped(host, plain) =>
        if fast && (!plain || st.wantDir) then GaveUp
        else if st.wantDir && env.kind(host) == NoDirectory then Err(ENOTDIR)
        else if st.wantDir && env.kind(host).Missing? && fl.creating then Err(EISDIR)
        else Resolved(st.canon, host)
  }

  /** The walk: it ends, by the links it may still follow and then the text it
   has left. */
  function Walk(env: Env, top: seq<string>, fl: Flags, fast: bool, st: St): Walked
    requires st.links <= MAX_LINKS
    decreases MAX_LINKS - st.links, |st.rest|
  {
    if Skip(st.rest) == "" then Finish(env, fl, fast, st)
    else match Step(env, top, fl, fast, st)
      case Stop(r) => r
      case Go(st') => Walk(env, top, fl, fast, st')
  }

  /** Where a walk starts: the root for an absolute path, else the directory
   `from`. */
  function Start(top: seq<string>, from: seq<string>, gone: bool, path: string): St {
    var abs := path != "" && path[0] == '/';
    var canon := if abs then top else from;
    St(canon, path, 0, DepthOf(top, canon), DepthOf(top, canon), WantsDir(path), !abs && gone)
  }

  function Resolve(env: Env, top: seq<string>, from: seq<string>, gone: bool, path: string, fl: Flags, fast: bool): Walked {
    if path == "" then Err(ENOENT)
    else if |path| + 1 > PATH_MAX then Err(ENAMETOOLONG)
    else Walk(env, top, fl, fast, Start(top, from, gone, path))
  }

  // ------------------------------------------------------------ text

  lemma {:induction false} SpanIs(c: string, x: string)
    requires '/' !in c && (x == "" || x[0] == '/')
    ensures Span(c + x) == |c|
  {
    if c != "" {
      assert c[0] in c && (c + x)[1..] == c[1..] + x;
      SpanIs(c[1..], x);
    } else {
      assert c + x == x;
    }
  }

  /** The first component of a text that starts with a slash. */
  lemma {:induction false} FirstIs(c: string, x: string)
    requires Name(c) && (x == "" || x[0] == '/')
    ensures Skip("/" + c + x) == c + x != "" && Component("/" + c + x) == c && After("/" + c + x) == x
  {
    assert ("/" + c + x)[1..] == c + x && c[0] in c;
    SpanIs(c, x);
  }

  lemma {:induction false} FirstName(cs: seq<string>)
    requires Names(cs) && cs != []
    ensures var s := Joined(cs); Skip(s) != "" && Component(s) == cs[0] && After(s) == Joined(cs[1..])
    ensures Joined(cs[1..]) == "" || Joined(cs[1..])[0] == '/'
    ensures AllSlashes(Joined(cs[1..])) <==> |cs| == 1
  {
    assert [cs[0]] + cs[1..] == cs && [cs[0]][..0] == [];
    JoinedConcat([cs[0]], cs[1..]);
    assert Joined([cs[0]]) == "/" + cs[0];
    if |cs| > 1 {
      JoinedConcat([cs[1]], cs[2..]);
      assert [cs[1]] + cs[2..] == cs[1..] && [cs[1]][..0] == [];
      assert Joined([cs[1]]) == "/" + cs[1];
      var s := Joined(cs[1..]);
      assert cs[1][0] in cs[1] && s[1] == cs[1][0];
    }
    FirstIs(cs[0], Joined(cs[1..]));
  }

  // ------------------------------------------------------------ contained and normal

  /** At or below the root, spelled canonically. */
  predicate Below(top: seq<string>, c: seq<string>) {
    |top| <= |c| && c[..|top|] == top && AllNormal(c) && |Spell(c)| + 1 <= PATH_MAX
  }

  /** ...with the depth counted right. */
  predicate Contained(top: seq<string>, st: St) {
    Below(top, st.canon) && st.depth == |st.canon| - |top| && 0 <= st.trusted <= st.depth
  }

  /** The step that followed the link of an unlinked working directory: nothing
   else sets the mark. */
  predicate Unlinks(st: St, o: Outcome) { o.Go? && !st.gone && o.st.gone }

  /** The walk from here follows such a link... */
  predicate WalkUnlinks(env: Env, top: seq<string>, fl: Flags, fast: bool, st: St)
    requires st.links <= MAX_LINKS
    decreases MAX_LINKS - st.links, |st.rest|
  {
    Skip(st.rest) != "" &&
    var o := Step(env, top, fl, fast, st);
    o.Go? && (Unlinks(st, o) || WalkUnlinks(env, top, fl, fast, o.st))
  }

  /** ...to a directory that was not below the root. */
  predicate WalkStrays(env: Env, top: seq<string>, fl: Flags, fast: bool, st: St)
    requires st.links <= MAX_LINKS
    decreases MAX_LINKS - st.links, |st.rest|
  {
    Skip(st.rest) != "" &&
    var o := Step(env, top, fl, fast, st);
    o.Go? && ((Unlinks(st, o) && !Below(top, o.st.canon)) || WalkStrays(env, top, fl, fast, o.st))
  }

  lemma {:induction false} ComponentIsName(s: string)
    requires Skip(s) != ""
    ensures Name(Component(s))
  {
  }

  lemma {:induction false} UpContained(env: Env, top: seq<string>, fast: bool, st: St)
    requires Contained(top, st) && |Spell(top)| + 1 <= PATH_MAX
    ensures var o := Up(env, top, fast, st); o.Go? ==> Contained(top, o.st) && !o.st.gone
  {
    hide Map, Joined;
    if st.canon != top { SpellParent(st.canon); }
  }

  lemma {:induction false} SpellParent(cs: seq<string>)
    requires cs != []
    ensures |Spell(Parent(cs))| <= |Spell(cs)|
  {
  }

  lemma {:induction false} SpliceContained(top: seq<string>, st: St, target: string)
    requires Contained(top, st) && AllNormal(top) && |Spell(top)| + 1 <= PATH_MAX
    ensures var o := Splice(top, st, target); o.Go? ==> Contained(top, o.st) && !o.st.gone
  {
    hide WantsDir, Joined;
  }

  /** The depth of a path at or below the root is its components there. */
  lemma {:induction false} DepthBelow(top: seq<string>, c: seq<string>)
    requires Below(top, c)
    ensures DepthOf(top, c) == |c| - |top|
  {
    assert c == top + c[|top|..];
    forall i | 0 <= i < |top| ensures Name(top[i]) { assert c[..|top|][i] == c[i]; }
    SpellBelow(top, c[|top|..]);
  }

  lemma {:induction false} FollowContained(env: Env, top: seq<string>, st: St, comp: string, host: string)
    requires Contained(top, st) && AllNormal(top) && |Spell(top)| + 1 <= PATH_MAX
    requires Contained(top, st.(canon := st.canon + [comp], depth := st.depth + 1, gone := false))
    ensures var o := Follow(env, top, st, comp, host);
            o.Go? ==> if o.st.gone then Below(top, o.st.canon) ==> Contained(top, o.st) else Contained(top, o.st)
  {
    hide Below, AllSlashes, Splice, In, Joined, DepthOf;
    forall target ensures var o := Splice(top, st, target); o.Go? ==> Contained(top, o.st) && !o.st.gone {
      SpliceContained(top, st, target);
    }
    forall c | Below(top, c) ensures DepthOf(top, c) == |c| - |top| && |top| <= |c| { DepthBelow(top, c); BelowLength(top, c); }
  }

  lemma {:induction false} BelowLength(top: seq<string>, c: seq<string>)
    requires Below(top, c)
    ensures |top| <= |c|
  {
  }

  lemma {:induction false} PushContained(top: seq<string>, st: St, comp: string)
    requires Contained(top, st) && Normal(comp) && |Spell(st.canon)| + 1 + |comp| + 1 <= PATH_MAX
    ensures Contained(top, st.(canon := st.canon + [comp], depth := st.depth + 1, gone := false))
  {
    JoinedStep(st.canon, comp);
  }

  lemma {:induction false} DownContained(env: Env, top: seq<string>, fl: Flags, fast: bool, st: St, comp: string)
    requires Contained(top, st) && AllNormal(top) && |Spell(top)| + 1 <= PATH_MAX && Normal(comp)
    ensures var o := Down(env, top, fl, fast, st, comp);
            o.Go? ==> if o.st.gone then Below(top, o.st.canon) ==> Contained(top, o.st) else Contained(top, o.st)
  {
    hide Map, AllSlashes, Follow, InZone, Joined;
    if |Spell(st.canon)| + 1 + |comp| + 1 <= PATH_MAX {
      PushContained(top, st, comp);
      forall host
        ensures var o := Follow(env, top, st, comp, host);
                o.Go? ==> if o.st.gone then Below(top, o.st.canon) ==> Contained(top, o.st) else Contained(top, o.st)
      {
        FollowContained(env, top, st, comp, host);
      }
    }
  }

  /** A step stays at or below the root, unless it follows the link of an
   unlinked working directory that was not. */
  lemma {:induction false} StepContained(env: Env, top: seq<string>, fl: Flags, fast: bool, st: St)
    requires Contained(top, st) && AllNormal(top) && |Spell(top)| + 1 <= PATH_MAX
    requires Skip(st.rest) != "" && st.links <= MAX_LINKS
    ensures var o := Step(env, top, fl, fast, st);
            o.Go? ==> Contained(top, o.st) || (Unlinks(st, o) && !Below(top, o.st.canon))
  {
    hide Up, Down, Component, After, Skip, Span, Spell, Below;
    ComponentIsName(st.rest);
    var comp, next := Component(st.rest), st.(rest := After(st.rest));
    if comp == ".." {
      UpContained(env, top, fast, next);
    } else if comp != "." {
      DownContained(env, top, fl, fast, next, comp);
    }
  }

  lemma {:induction false} WalkContained(env: Env, top: seq<string>, fl: Flags, fast: bool, st: St)
    requires Contained(top, st) && AllNormal(top) && |Spell(top)| + 1 <= PATH_MAX
    requires st.links <= MAX_LINKS
    ensures var r := Walk(env, top, fl, fast, st); r.Resolved? ==> Below(top, r.canon) || WalkStrays(env, top, fl, fast, st)
    decreases MAX_LINKS - st.links, |st.rest|
  {
    hide Step, Skip, Spell, AllNormal, Map, Below;
    if Skip(st.rest) != "" {
      var o := Step(env, top, fl, fast, st);
      StepContained(env, top, fl, fast, st);
      if o.Go? && Contained(top, o.st) { WalkContained(env, top, fl, fast, o.st); }
    }
  }

  /** What it takes to stray: such a link on the way, to such a directory. */
  lemma {:induction false} StraysMeans(env: Env, top: seq<string>, fl: Flags, fast: bool, st: St)
    requires st.links <= MAX_LINKS && WalkStrays(env, top, fl, fast, st)
    ensures WalkUnlinks(env, top, fl, fast, st)
    ensures exists c :: env.magic(c).Unlinked? && !Below(top, env.magic(c).path)
    decreases MAX_LINKS - st.links, |st.rest|
  {
    hide Step, Skip, Below;
    var o := Step(env, top, fl, fast, st);
    if Unlinks(st, o) && !Below(top, o.st.canon) {
      var c := UnlinksWhere(env, top, fl, fast, st);
    } else {
      StraysMeans(env, top, fl, fast, o.st);
    }
  }

  lemma {:induction false} UnlinksWhere(env: Env, top: seq<string>, fl: Flags, fast: bool, st: St) returns (c: string)
    requires Skip(st.rest) != "" && st.links <= MAX_LINKS && Unlinks(st, Step(env, top, fl, fast, st))
    ensures env.magic(c) == Unlinked(Step(env, top, fl, fast, st).st.canon)
  {
    hide Map, Component, After, AllSlashes, In, Spell, WantsDir, InZone;
    var pushed := st.canon + [Component(st.rest)];
    c := if env.magic(Spell(pushed)) == NoMagic then Map(env, Spell(pushed)).host else Spell(pushed);
  }

  /** An absolute path, or one from a directory at or below the root, resolves at
   or below the root, to a path of plain names that fits, whatever links the tree
   holds: unless it strays. */
  lemma {:induction false} ResolvesContained(env: Env, top: seq<string>, from: seq<string>, gone: bool, path: string, fl: Flags, fast: bool)
    requires AllNormal(top) && |Spell(top)| + 1 <= PATH_MAX && ((path != "" && path[0] == '/') || Below(top, from))
    ensures var r := Resolve(env, top, from, gone, path, fl, fast);
            r.Resolved? ==> Below(top, r.canon) || WalkStrays(env, top, fl, fast, Start(top, from, gone, path))
  {
    hide Walk, WalkStrays, WantsDir, DepthOf, Spell;
    assert top[..|top|] == top;
    DepthBelow(top, top);
    if Below(top, from) { DepthBelow(top, from); }
    WalkContained(env, top, fl, fast, Start(top, from, gone, path));
  }

  /** So it does when it meets no unlinked-cwd link, and when every directory the
   process was in when it was unlinked lay below the root. */
  lemma {:induction false} AbsoluteIsContained(env: Env, top: seq<string>, from: seq<string>, path: string, fl: Flags, fast: bool)
    requires path != "" && path[0] == '/' && AllNormal(top) && |Spell(top)| + 1 <= PATH_MAX
    ensures var r := Resolve(env, top, from, false, path, fl, fast);
            r.Resolved? && !WalkUnlinks(env, top, fl, fast, Start(top, from, false, path)) ==> Below(top, r.canon)
    ensures var r := Resolve(env, top, from, false, path, fl, fast);
            r.Resolved? && (forall c :: env.magic(c).Unlinked? ==> Below(top, env.magic(c).path)) ==> Below(top, r.canon)
  {
    hide Walk, WalkStrays, WalkUnlinks, Start, Below;
    ResolvesContained(env, top, from, false, path, fl, fast);
    var st := Start(top, from, false, path);
    assert st.links == 0 by { StartLinks(top, from, false, path); }
    if WalkStrays(env, top, fl, fast, st) { StraysMeans(env, top, fl, fast, st); }
  }

  lemma {:induction false} StartLinks(top: seq<string>, from: seq<string>, gone: bool, path: string)
    ensures Start(top, from, gone, path).links == 0
  {
  }
}
