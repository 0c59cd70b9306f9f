/**
 path_walk on its buffers, and path_resolve_pin: both give the answer of the
 walk over components.
 */
module PathResolve {
  import opened Options
  import opened PathNames
  import opened PathWalk
  import opened PathFast

  /** What path_walk returns: an error, the canonical and host paths, or (fast
   cleared) nothing. */
  datatype Result = Failed(e: Errno) | Done(canon: string, host: string) | Declined

  ghost predicate Spells(r: Result, w: Walked) {
    match w
    case Err(e) => r == Failed(e)
    case Resolved(c, h) => r == Done(Spell(c), h)
    case GaveUp => r == Declined
  }

  method SkipSlashes(rest: string) returns (text: string)
    ensures text == Skip(rest)
  {
    var p := 0;
    while p < |rest| && rest[p] == '/'
      invariant p <= |rest| && Skip(rest[p..]) == Skip(rest)
    {
      assert rest[p..][1..] == rest[p + 1..];
      p := p + 1;
    }
    text := rest[p..];
  }

  method NameLength(text: string) returns (e: nat)
    ensures e == Span(text)
  {
    e := 0;
    while e < |text| && text[e] != '/'
      invariant e <= |text| && Span(text) == e + Span(text[e..])
    {
      assert text[e..][1..] == text[e + 1..];
      e := e + 1;
    }
  }

  method OnlySlashes(tail: string) returns (last: bool)
    ensures last == AllSlashes(tail)
  {
    var k := 0;
    while k < |tail| && tail[k] == '/'
      invariant k <= |tail| && forall i :: 0 <= i < k ==> tail[i] == '/'
    {
      k := k + 1;
    }
    last := k == |tail|;
    SlashesAre(tail, k);
  }

  /** The next component, the text after it, and whether it is the last. */
  method Next(rest: string) returns (comp: string, tail: string, last: bool)
    requires Skip(rest) != ""
    ensures comp == Component(rest) && tail == After(rest) && last == AllSlashes(tail)
  {
    hide Skip, Span, AllSlashes;
    var text := SkipSlashes(rest);
    var e := NameLength(text);
    comp, tail := text[..e], text[e..];
    last := OnlySlashes(tail);
  }

  lemma {:induction false} SlashesAre(s: string, k: nat)
    requires k <= |s| && (forall i :: 0 <= i < k ==> s[i] == '/') && (k < |s| ==> s[k] != '/')
    ensures (k == |s|) == AllSlashes(s)
  {
  }

  /** The buffers of a walk. */
  class Walker {
    var canon: string
    var rest: string
    var links: nat
    var depth: int
    var trusted: int
    var wantDir: bool
    var gone: bool
    ghost var cs: seq<string>

    ghost predicate Valid()
      reads this
    {
      canon == Spell(cs) && Names(cs) && links <= MAX_LINKS
    }

    ghost function State(): St
      reads this
    {
      St(cs, rest, links, depth, trusted, wantDir, gone)
    }

    /** What a step over components does, done to the buffers. */
    ghost predicate Did(o: Outcome, stop: Option<Result>)
      reads this
    {
      match o
      case Go(st) => stop == None && Valid() && State() == st
      case Stop(w) => stop.Some? && Spells(stop.value, w)
    }

    /** A ".." (the text after it is already in `rest`). */
    method DotDot(env: Env, root: string, fast: bool, ghost top: seq<string>) returns (stop: Option<Result>)
      requires Valid() && root == Spell(top) && Names(top)
      modifies this
      ensures Did(Up(env, top, fast, old(State())), stop)
    {
      hide Map, Joined;
      ghost var st := State();
      gone := false;
      if canon == root {
        SpellInjective(cs, top);
        return None;
      }
      if fast { return Some(Declined); }
      if depth > trusted {
        match Map(env, canon)
        case TooLong => return Some(Failed(ENAMETOOLONG));
        case Mapped(host, _) =>
          match env.kind(host)
          case Missing(e) => return Some(Failed(e));
          case NoDirectory => return Some(Failed(ENOTDIR));
          case Directory =>
      }
      canon := Pop(canon, cs);
      cs := Parent(cs);
      depth := depth - 1;
      if depth < trusted { trusted := depth; }
      return None;
    }

    /** A link's target replaces the component just pushed. */
    method Replace(root: string, target: string, ghost top: seq<string>, ghost st: St, ghost comp: string) returns (stop: Option<Result>)
      requires Valid() && root == Spell(top) && Names(top) && Names(st.canon) && st.links <= MAX_LINKS
      requires State() == st.(canon := st.canon + [comp], depth := st.depth + 1, gone := false)
      modifies this
      ensures Did(Splice(top, st, target), stop)
    {
      hide Joined, WantsDir;
      if links + 1 > MAX_LINKS { return Some(Failed(ELOOP)); }
      links := links + 1;
      if |target| + |rest| + 1 > PATH_MAX { return Some(Failed(ENAMETOOLONG)); }
      rest := target + rest;
      wantDir := WantsDir(rest);
      canon := Pop(canon, cs);
      cs := Parent(cs);
      assert cs == st.canon;
      depth := depth - 1;
      if depth < trusted { trusted := depth; }
      if target != "" && target[0] == '/' {
        canon, cs := root, top;
        depth, trusted := 0, 0;
      }
      return None;
    }

    /** The unlinked working directory, as the walk that starts in it has it. */
    method Vanish(root: string, path: seq<string>, ghost top: seq<string>)
      requires Valid() && root == Spell(top) && Names(path) && links < MAX_LINKS
      modifies this
      ensures Valid()
      ensures State() == old(State()).(canon := path, links := old(links) + 1, depth := DepthOf(top, path),
                                       trusted := DepthOf(top, path), gone := true)
    {
      hide Joined, Starts;
      links := links + 1;
      canon, cs := Spell(path), path;
      var text := canon;
      if |root| > 1 && |root| <= |canon| && canon[..|root|] == root { text := canon[|root|..]; }
      var n := CountStarts(text);
      depth, trusted, gone := n, n, true;
    }

    /** The component just pushed, which is at `host`. */
    method Look(env: Env, root: string, host: string, last: bool, ghost top: seq<string>, ghost st: St, ghost comp: string)
      returns (stop: Option<Result>)
      requires Valid() && root == Spell(top) && Names(top) && Names(st.canon) && st.links <= MAX_LINKS
      requires State() == st.(canon := st.canon + [comp], depth := st.depth + 1, gone := false)
      requires last == AllSlashes(rest) && EnvOk(env)
      modifies this
      ensures Did(Follow(env, top, st, comp, host), stop)
    {
      hide Joined, AllSlashes, Splice, DepthOf, In;
      var magic := env.magic(canon);
      if magic == NoMagic && ProcHost(host) { magic := env.magic(host); }
      match magic
      case Fails(e) => return Some(Failed(e));
      case Leads(target) =>
        stop := Replace(root, target, top, st, comp);
      case Unlinked(path) =>
        if links + 1 > MAX_LINKS { return Some(Failed(ELOOP)); }
        Vanish(root, path, top);
        return None;
      case NoMagic =>
        var target := env.link(host);
        if target.None? { return None; }
        if !ProcHost(host) {
          stop := Replace(root, target.value, top, st, comp);
        } else {
          if last || target.value == "" || target.value[0] != '/' { return None; }
          var v := env.view(target.value);
          if v.None? || |v.value| + 1 > PATH_MAX { return Some(Failed(ENAMETOOLONG)); }
          stop := Replace(root, v.value, top, st, comp);
        }
    }

    /** A name. */
    method Enter(env: Env, root: string, fl: Flags, fast: bool, comp: string, last: bool, ghost top: seq<string>)
      returns (stop: Option<Result>)
      requires Valid() && root == Spell(top) && Names(top) && Name(comp) && last == AllSlashes(rest) && EnvOk(env)
      modifies this
      ensures Did(Down(env, top, fl, fast, old(State()), comp), stop)
    {
      hide Map, Joined, AllSlashes, InZone, Follow, EnvOk;
      ghost var st := State();
      var ok, pushed := Push(canon, comp, cs);
      if !ok { return Some(Failed(ENAMETOOLONG)); }
      canon, depth, gone := pushed, depth + 1, false;
      cs := cs + [comp];
      if fast {
        if InZone(env, canon) { return Some(Declined); }
        return None;
      }
      if last && fl.nofollow && !wantDir { return None; }
      var mapped := Map(env, canon);
      if mapped.TooLong? { return Some(Failed(ENAMETOOLONG)); }
      stop := Look(env, root, mapped.host, last, top, st, comp);
    }

    /** The body of the walk's loop. */
    method One(env: Env, root: string, fl: Flags, fast: bool, ghost top: seq<string>) returns (stop: Option<Result>)
      requires Valid() && root == Spell(top) && Names(top) && EnvOk(env) && Skip(rest) != ""
      modifies this
      ensures Did(Step(env, top, fl, fast, old(State())), stop)
    {
      hide Up, Down, Component, After, Skip, AllSlashes, EnvOk, Spell, Map;
      ghost var st := State();
      ComponentIsName(rest);
      var comp, tail, last := Next(rest);
      if |comp| >= PATH_MAX { return Some(Failed(ENAMETOOLONG)); }
      rest := tail;
      if comp == "." { return None; }
      if gone && comp != ".." { return Some(Failed(ENOENT)); }
      if comp == ".." {
        stop := DotDot(env, root, fast, top);
      } else {
        stop := Enter(env, root, fl, fast, comp, last, top);
      }
    }

    /** path_walk, from where it starts: the walk over components. */
    method Run(env: Env, root: string, fl: Flags, fast: bool, ghost top: seq<string>) returns (r: Result)
      requires Valid() && root == Spell(top) && Names(top) && EnvOk(env)
      modifies this
      ensures Spells(r, Walk(env, top, fl, fast, old(State())))
    {
      hide Step, Skip, EnvOk, Map, Spell;
      ghost var start := State();
      while Skip(rest) != ""
        invariant Valid() && Walk(env, top, fl, fast, State()) == Walk(env, top, fl, fast, start)
        decreases MAX_LINKS - links, |rest|
      {
        ghost var st := State();
        var stop := One(env, root, fl, fast, top);
        if stop.Some? { return stop.value; }
      }
      if gone {
        if fast { return Declined; }
        return Done(canon, ".");
      }
      var mapped := Map(env, canon);
      if mapped.TooLong? { return Failed(ENAMETOOLONG); }
      var host := mapped.host;
      if fast && (!mapped.plain || wantDir) { return Declined; }
      if wantDir {
        if env.kind(host) == NoDirectory { return Failed(ENOTDIR); }
        if env.kind(host).Missing? && fl.creating { return Failed(EISDIR); }
      }
      return Done(canon, host);
    }
  }

  /** path_walk */
  method Resolving(env: Env, top: seq<string>, from: seq<string>, gone: bool, path: string, fl: Flags, fast: bool)
    returns (r: Result)
    requires EnvOk(env) && Names(top) && Names(from)
    ensures Spells(r, Resolve(env, top, from, gone, path, fl, fast))
  {
    hide EnvOk, Walk, Spell, Starts, WantsDir;
    if path == "" { return Failed(ENOENT); }
    if |path| + 1 > PATH_MAX { return Failed(ENAMETOOLONG); }
    var w := new Walker;
    var abs := path[0] == '/';
    var start := if abs then top else from;
    w.canon, w.cs, w.rest := Spell(start), start, path;
    w.links, w.wantDir, w.gone := 0, WantsDir(path), !abs && gone;
    w.depth := DepthOf(top, start);
    w.trusted := w.depth;
    r := w.Run(env, Spell(top), fl, fast, top);
  }

  /** path_resolve_pin, as far as the answer goes: whichever route it takes, the
   answer is the full walk's. */
  method ResolvePin(env: Env, top: seq<string>, from: seq<string>, gone: bool, path: string, fl: Flags, fastOff: bool,
                    pin: (seq<string>, string) -> Option<Errno>)
    returns (r: Walked, err: Option<Errno>)
    requires EnvOk(env) && Names(top) && Names(from)
    ensures r != Resolve(env, top, from, gone, path, fl, false) ==> r.Resolved? && LinkedDev(env, top, from, path)
    ensures r.Err? ==> err == Some(r.e)
    ensures r.Resolved? && err != pin(r.canon, r.host) ==> err.None? && !fastOff && Accepts(env, r, fl, path)
  {
    if !fastOff {
      r := Resolve(env, top, from, gone, path, fl, true);
      if r.Resolved? && Accepts(env, r, fl, path) {
        FastRefinesSlow(env, top, from, gone, path, fl);
        return r, None;
      }
    }
    r := Resolve(env, top, from, gone, path, fl, false);
    err := match r
      case Err(e) => Some(e)
      case Resolved(canon, host) => pin(canon, host)
      case GaveUp => None;
  }
}
