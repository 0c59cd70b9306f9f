/**
 What a resolved path means, apart from how the walk finds it: a canonical path
 resolves to itself, a link stands for its target, and a directory followed by
 ".." for nothing.
 */
module PathLaws {
  import opened Options
  import opened PathNames
  import opened PathWalk
  import PathFast

  // ------------------------------------------------------------ canonical paths

  /** The last component of `c` is where the walk leaves it, with `more` to read
   or without: no link, or one of the host's /proc that is left to the host. */
  predicate Stays(env: Env, c: seq<string>, more: bool) {
    match Map(env, Spell(c))
    case TooLong => false
    case Mapped(host, _) =>
      && env.magic(Spell(c)) == NoMagic && (ProcHost(host) ==> env.magic(host) == NoMagic)
      && (env.link(host).Some? ==>
            ProcHost(host) && (!more || env.link(host).value == "" || env.link(host).value[0] != '/'))
  }

  /** A path the walk has come to, `n` components of which are the root's: those
   below stay, and the first fitted behind the slash of "/". */
  predicate Settled(env: Env, n: nat, c: seq<string>, end: bool) {
    && (n == 0 && c != [] ==> |c[0]| + 3 <= PATH_MAX)
    && forall k :: n < k <= |c| ==> Stays(env, c[..k], k < |c| || !end)
  }

  lemma {:induction false} SettledPrefix(env: Env, n: nat, c: seq<string>, m: nat, end: bool)
    requires Settled(env, n, c, false) && m <= |c|
    ensures Settled(env, n, c[..m], end)
  {
    hide Stays;
    forall k | n < k <= m ensures Stays(env, c[..m][..k], k < m || !end) {
      assert c[..m][..k] == c[..k] && Stays(env, c[..k], true);
      StaysLess(env, c[..k]);
    }
  }

  lemma {:induction false} StaysLess(env: Env, c: seq<string>)
    requires Stays(env, c, true)
    ensures Stays(env, c, false)
  {
  }

  lemma {:induction false} SettledPush(env: Env, n: nat, c: seq<string>, comp: string, end: bool)
    requires Settled(env, n, c, false) && Stays(env, c + [comp], !end) && |Spell(c)| + 1 + |comp| + 1 <= PATH_MAX
    ensures Settled(env, n, c + [comp], end)
  {
    hide Stays;
    var p := c + [comp];
    forall k | n < k <= |p| ensures Stays(env, p[..k], k < |p| || !end) {
      if k < |p| { assert p[..k] == c[..k]; } else { assert p[..k] == p; }
    }
  }

  lemma {:induction false} RootSettled(env: Env, top: seq<string>, end: bool)
    ensures Settled(env, |top|, top, end)
  {
  }

  /** Following a name leaves it where it stays, or goes on from the directory
   it was in, or from the root; or it is an unlinked working directory's. */
  lemma {:induction false} FollowSettles(env: Env, top: seq<string>, st: St, comp: string, host: string, plain: bool)
    requires Map(env, Spell(st.canon + [comp])) == Mapped(host, plain)
    ensures var o := Follow(env, top, st, comp, host);
            o.Go? && !o.st.gone && !st.gone ==>
              || o.st.canon == st.canon || o.st.canon == top
              || (o.st.canon == st.canon + [comp] && o.st.rest == st.rest && Stays(env, o.st.canon, !AllSlashes(st.rest)))
  {
    hide Map, AllSlashes, WantsDir, Spell, In, DepthOf;
  }

  lemma {:induction false} StepSettles(env: Env, top: seq<string>, fl: Flags, st: St)
    requires !fl.nofollow && Skip(st.rest) != "" && st.links <= MAX_LINKS && !st.gone && Settled(env, |top|, st.canon, false)
    ensures var o := Step(env, top, fl, false, st);
            o.Go? && !o.st.gone ==> Settled(env, |top|, o.st.canon, AllSlashes(o.st.rest))
  {
    hide Map, Follow, Stays, Spell, Component, After, Skip, Settled;
    var o, n := Step(env, top, fl, false, st), |top|;
    var comp, next := Component(st.rest), st.(rest := After(st.rest));
    if o.Go? && !o.st.gone {
      var end := AllSlashes(o.st.rest);
      assert st.canon[..|st.canon|] == st.canon;
      SettledPrefix(env, n, st.canon, |st.canon|, end);
      SettledPrefix(env, n, st.canon, |Parent(st.canon)|, end);
      RootSettled(env, top, end);
      if comp != "." && comp != ".." {
        var m := Map(env, Spell(st.canon + [comp]));
        FollowSettles(env, top, next, comp, m.host, m.plain);
        if o.st.canon == st.canon + [comp] && o.st.canon != st.canon && o.st.canon != top {
          SettledPush(env, n, st.canon, comp, end);
        }
      }
    }
  }

  lemma {:induction false} WalkSettles(env: Env, top: seq<string>, fl: Flags, st: St)
    requires !fl.nofollow && st.links <= MAX_LINKS && !st.gone && Settled(env, |top|, st.canon, AllSlashes(st.rest))
    requires !WalkUnlinks(env, top, fl, false, st)
    ensures var r := Walk(env, top, fl, false, st);
            r.Resolved? ==>
              Settled(env, |top|, r.canon, true) && Map(env, Spell(r.canon)).Mapped? && Map(env, Spell(r.canon)).host == r.host
    decreases MAX_LINKS - st.links, |st.rest|
  {
    hide Step, Map, Spell, Settled;
    if Skip(st.rest) != "" {
      var o := Step(env, top, fl, false, st);
      StepSettles(env, top, fl, st);
      if o.Go? { WalkSettles(env, top, fl, o.st); }
    }
  }

  /** Reading a settled path again, from its component `k` on. */
  lemma {:induction false} Rewalk(env: Env, top: seq<string>, fl: Flags, c: seq<string>, k: nat, st: St)
    requires Settled(env, |top|, c, true) && AllNormal(c) && |Spell(c)| + 1 <= PATH_MAX && |top| <= k <= |c| && Map(env, Spell(c)).Mapped?
    requires st.canon == c[..k] && st.rest == Joined(c[k..]) && st.links <= MAX_LINKS && !st.wantDir && !st.gone
    ensures Walk(env, top, fl, false, st) == Resolved(c, Map(env, Spell(c)).host)
    decreases |c| - k
  {
    hide Map, Stays, Spell, Joined, AllSlashes;
    if k < |c| {
      RewalkStep(env, top, fl, c, k, st);
      Rewalk(env, top, fl, c, k + 1, Step(env, top, fl, false, st).st);
    } else {
      assert c[..k] == c && c[k..] == [];
      assert Joined([]) == "" by { NoText(); }
    }
  }

  lemma {:induction false} NoText()
    ensures Joined([]) == "" && Skip("") == ""
  {
  }

  lemma {:induction false} RewalkStep(env: Env, top: seq<string>, fl: Flags, c: seq<string>, k: nat, st: St)
    requires Settled(env, |top|, c, true) && AllNormal(c) && |Spell(c)| + 1 <= PATH_MAX && |top| <= k < |c|
    requires st.canon == c[..k] && st.rest == Joined(c[k..]) && st.links <= MAX_LINKS && !st.wantDir && !st.gone
    ensures Skip(st.rest) != ""
    ensures Step(env, top, fl, false, st)
            == Go(st.(canon := c[..k + 1], rest := Joined(c[k + 1..]), depth := st.depth + 1))
  {
    hide Map, Spell, Joined, Skip, Span;
    var pushed := c[..k + 1];
    FirstName(c[k..]);
    assert c[k..][1..] == c[k + 1..] && c[..k] + [c[k]] == pushed;
    assert Normal(c[k]) && Stays(env, pushed, k + 1 < |c|);
    PushFits(c, k);
  }

  lemma {:induction false} TailFits(top: seq<string>, c: seq<string>)
    requires Below(top, c) && |top| < |c|
    ensures var below := c[|top|..]; AllNormal(below) && Spell(below) == Joined(below) && |Spell(below)| + 1 <= PATH_MAX
    ensures Spell(c[|top|..]) != "" && Spell(c[|top|..])[0] == '/'
  {
    var below := c[|top|..];
    assert c == top + below;
    JoinedConcat(top, below);
    SpellLength(c);
    JoinedPrefix(below, 0);
    assert below[..0] == [];
  }

  /** What a followed absolute path resolved to, spelled from the root and
   resolved again, gives the same, however it is asked for: canonical paths are
   canonical, under any root. */
  lemma {:induction false} CanonicalIsFixed(env: Env, top: seq<string>, from: seq<string>, path: string, fl: Flags, again: Flags)
    requires AllNormal(top) && |Spell(top)| + 1 <= PATH_MAX && path != "" && path[0] == '/' && !fl.nofollow
    requires !WalkUnlinks(env, top, fl, false, Start(top, from, false, path))
    ensures var r := Resolve(env, top, from, false, path, fl, false);
            r.Resolved? && r.canon != top ==>
              Below(top, r.canon) && Resolve(env, top, from, false, Spell(r.canon[|top|..]), again, false) == r
  {
    hide Walk, WalkUnlinks, Map, Settled, Skip, WantsDir, Joined, DepthOf, Spell;
    var r, st := Resolve(env, top, from, false, path, fl, false), Start(top, from, false, path);
    if r.Resolved? && r.canon != top {
      RootSettled(env, top, AllSlashes(path));
      WalkSettles(env, top, fl, st);
      AbsoluteIsContained(env, top, from, path, fl, false);
      var c := r.canon;
      assert c[..|c|] == c;
      TailFits(top, c);
      PathFast.WantsNoDir(c[|top|..]);
      Rewalk(env, top, again, c, |top|, Start(top, from, false, Spell(c[|top|..])));
    }
  }

  // ------------------------------------------------------------ links

  /** The next name of the text, and where it is: a link of the host's, outside
   /proc, that the walk may follow. */
  ghost predicate AtLink(env: Env, fl: Flags, st: St, target: string) {
    && Skip(st.rest) != "" && st.links <= MAX_LINKS && !st.gone
    && var comp := Component(st.rest);
       && Normal(comp) && |comp| < PATH_MAX && |Spell(st.canon)| + 1 + |comp| + 1 <= PATH_MAX
       && !(AllSlashes(After(st.rest)) && fl.nofollow && !st.wantDir)
       && var m := Map(env, Spell(st.canon + [comp]));
          && m.Mapped? && !ProcHost(m.host) && env.magic(Spell(st.canon + [comp])) == NoMagic
          && env.link(m.host) == Some(target)
  }

  /** A link is what its target spells, with the text after it: read from the
   root if it is absolute, else from the directory the link is in. One link
   fewer may follow. */
  lemma {:induction false} LinkMeansTarget(env: Env, top: seq<string>, fl: Flags, st: St, target: string)
    requires AtLink(env, fl, st, target) && Names(top) && 0 <= st.trusted <= st.depth
    ensures var text, r := target + After(st.rest), Walk(env, top, fl, false, st);
            if st.links == MAX_LINKS then r == Err(ELOOP)
            else if |text| + 1 > PATH_MAX then r == Err(ENAMETOOLONG)
            else if target != "" && target[0] == '/'
            then r == Walk(env, top, fl, false, Start(top, [], false, text).(links := st.links + 1))
            else r == Walk(env, top, fl, false, st.(rest := text, links := st.links + 1, wantDir := WantsDir(text)))
  {
    hide Map, Skip, Component, After, WantsDir, Spell, AllSlashes, In;
    assert DepthOf(top, top) == 0 by { RootDepth(top); }
  }

  /** The next name of the text, and the host file it names. */
  ghost predicate AtName(env: Env, fl: Flags, st: St, host: string) {
    && Skip(st.rest) != "" && st.links <= MAX_LINKS && !st.gone
    && var comp := Component(st.rest);
       && Normal(comp) && |comp| < PATH_MAX && |Spell(st.canon)| + 1 + |comp| + 1 <= PATH_MAX
       && !(AllSlashes(After(st.rest)) && fl.nofollow && !st.wantDir)
       && var m := Map(env, Spell(st.canon + [comp]));
          m.Mapped? && m.host == host
  }

  /** The walk goes on as it would through a link to `target`. */
  ghost predicate GoesTo(env: Env, top: seq<string>, fl: Flags, st: St, target: string)
    requires st.links <= MAX_LINKS
  {
    var text, r := target + After(st.rest), Walk(env, top, fl, false, st);
    if st.links == MAX_LINKS then r == Err(ELOOP)
    else if |text| + 1 > PATH_MAX then r == Err(ENAMETOOLONG)
    else if target != "" && target[0] == '/'
    then r == Walk(env, top, fl, false, Start(top, [], false, text).(links := st.links + 1))
    else r == Walk(env, top, fl, false, st.(rest := text, links := st.links + 1, wantDir := WantsDir(text)))
  }

  /** The links of /proc the emulator answers itself: a target is followed like any,
   an error ends the walk, and the working directory's, unlinked, goes on inside it. */
  lemma {:induction false} MagicMeansTarget(env: Env, top: seq<string>, fl: Flags, st: St, host: string)
    requires AtName(env, fl, st, host) && Names(top) && 0 <= st.trusted <= st.depth
    ensures match env.magic(Spell(st.canon + [Component(st.rest)]))
            case Leads(target) => GoesTo(env, top, fl, st, target)
            case Fails(e) => Walk(env, top, fl, false, st) == Err(e)
            case Unlinked(path) =>
              var d := DepthOf(top, path);
              Walk(env, top, fl, false, st)
              == if st.links == MAX_LINKS then Err(ELOOP)
                 else Walk(env, top, fl, false, St(path, After(st.rest), st.links + 1, d, d, st.wantDir, true))
            case NoMagic => true
  {
    hide Map, Skip, Component, After, WantsDir, Spell, AllSlashes, In;
    assert DepthOf(top, top) == 0 by { RootDepth(top); }
  }

  /** Another link of the host's /proc is followed to where the guest sees its target,
   and only on the way to something else. */
  lemma {:induction false} ProcLinkMeansView(env: Env, top: seq<string>, fl: Flags, st: St, host: string, target: string)
    requires AtName(env, fl, st, host) && Names(top) && 0 <= st.trusted <= st.depth && ProcHost(host)
    requires env.magic(Spell(st.canon + [Component(st.rest)])) == env.magic(host) == NoMagic && env.link(host) == Some(target)
    ensures var seen, r := env.view(target), Walk(env, top, fl, false, st);
            if AllSlashes(After(st.rest)) || target == "" || target[0] != '/'
            then r == Walk(env, top, fl, false,
                           st.(canon := st.canon + [Component(st.rest)], rest := After(st.rest), depth := st.depth + 1))
            else if seen.None? || |seen.value| + 1 > PATH_MAX then r == Err(ENAMETOOLONG)
            else GoesTo(env, top, fl, st, seen.value)
  {
    hide Map, Skip, Component, After, WantsDir, Spell, AllSlashes, In;
    assert DepthOf(top, top) == 0 by { RootDepth(top); }
  }

  lemma {:induction false} RootDepth(top: seq<string>)
    requires Names(top)
    ensures DepthOf(top, top) == 0
  {
    assert top + [] == top;
    SpellBelow(top, []);
  }

  /** A name at `host` is followed, by whichever kind of link it is. */
  predicate Followed(env: Env, st: St, comp: string, host: string) {
    var m := env.magic(Spell(st.canon + [comp]));
    var magic := if m == NoMagic && ProcHost(host) then env.magic(host) else m;
    match magic
    case Fails(_) => false
    case Leads(_) => true
    case Unlinked(_) => true
    case NoMagic =>
      && env.link(host).Some?
      && var target := env.link(host).value;
         ProcHost(host) ==>
           && !AllSlashes(st.rest) && target != "" && target[0] == '/'
           && env.view(target).Some? && |env.view(target).value| + 1 <= PATH_MAX
  }

  /** The next component is followed, if links are left. */
  predicate AsksLink(env: Env, fl: Flags, st: St) {
    && Skip(st.rest) != ""
    && var comp, next := Component(st.rest), st.(rest := After(st.rest));
       && |comp| < PATH_MAX && comp != "." && comp != ".." && !st.gone && |Spell(st.canon)| + 1 + |comp| + 1 <= PATH_MAX
       && !(AllSlashes(next.rest) && fl.nofollow && !st.wantDir)
       && var m := Map(env, Spell(st.canon + [comp]));
          m.Mapped? && Followed(env, next, comp, m.host)
  }

  /** How many links a walk asks to follow, with those it has followed: more than
   it may only if the last one is refused. */
  function Asked(env: Env, top: seq<string>, fl: Flags, st: St): (n: nat)
    requires st.links <= MAX_LINKS
    ensures st.links <= n <= MAX_LINKS + 1
    decreases MAX_LINKS - st.links, |st.rest|
  {
    if Skip(st.rest) == "" then st.links
    else match Step(env, top, fl, false, st)
      case Stop(_) => if AsksLink(env, fl, st) then st.links + 1 else st.links
      case Go(st') => Asked(env, top, fl, st')
  }

  /** The same outcome with one link more spent, unless it was the last. */
  predicate OneMore(o: Outcome, o': Outcome, asks: bool, links: nat) {
    && (o.Go? ==> o.st.links == links + if asks then 1 else 0)
    && o' == (if asks && links + 1 >= MAX_LINKS then Stop(Err(ELOOP))
              else if o.Stop? then o
              else Go(o.st.(links := o.st.links + 1)))
  }

  lemma {:induction false} OneMoreSplice(top: seq<string>, st: St, target: string)
    requires st.links < MAX_LINKS
    ensures OneMore(Splice(top, st, target), Splice(top, st.(links := st.links + 1), target), true, st.links)
  {
    hide WantsDir;
  }

  lemma {:induction false} OneMoreFollow(env: Env, top: seq<string>, st: St, comp: string, host: string)
    requires st.links < MAX_LINKS
    ensures OneMore(Follow(env, top, st, comp, host), Follow(env, top, st.(links := st.links + 1), comp, host),
                    Followed(env, st, comp, host), st.links)
  {
    hide WantsDir, Spell, AllSlashes, In, DepthOf, Splice;
    forall target ensures OneMore(Splice(top, st, target), Splice(top, st.(links := st.links + 1), target), true, st.links) {
      OneMoreSplice(top, st, target);
    }
  }

  lemma {:induction false} OneMoreStep(env: Env, top: seq<string>, fl: Flags, st: St)
    requires st.links < MAX_LINKS && Skip(st.rest) != ""
    ensures OneMore(Step(env, top, fl, false, st), Step(env, top, fl, false, st.(links := st.links + 1)),
                    AsksLink(env, fl, st), st.links)
  {
    hide Map, Skip, Component, After, Spell, AllSlashes, Follow, Followed;
    var comp, next := Component(st.rest), st.(rest := After(st.rest));
    var m := Map(env, Spell(st.canon + [comp]));
    if m.Mapped? { OneMoreFollow(env, top, next, comp, m.host); }
  }

  /** A walk that has spent one link more goes the same way, unless it asks for
   every link there is: then it is refused one. */
  lemma {:induction false} OneLinkMore(env: Env, top: seq<string>, fl: Flags, st: St)
    requires st.links < MAX_LINKS
    ensures Walk(env, top, fl, false, st.(links := st.links + 1))
            == if Asked(env, top, fl, st) >= MAX_LINKS then Err(ELOOP) else Walk(env, top, fl, false, st)
    decreases MAX_LINKS - st.links, |st.rest|
  {
    hide Step, Skip, Map, AsksLink;
    if Skip(st.rest) != "" {
      OneMoreStep(env, top, fl, st);
      var o := Step(env, top, fl, false, st);
      if o.Go? && o.st.links < MAX_LINKS { OneLinkMore(env, top, fl, o.st); }
    }
  }

  /** Links to spare change nothing: a walk that was not refused goes the same way
   with fewer spent. */
  lemma {:induction false} FewerLinks(env: Env, top: seq<string>, fl: Flags, st: St, k: nat)
    requires k <= st.links <= MAX_LINKS && Walk(env, top, fl, false, st) != Err(ELOOP)
    ensures Walk(env, top, fl, false, st.(links := k)) == Walk(env, top, fl, false, st)
    decreases st.links
  {
    hide Walk, Asked;
    if k < st.links {
      var one := st.(links := st.links - 1);
      OneLinkMore(env, top, fl, one);
      assert one.(links := one.links + 1) == st;
      FewerLinks(env, top, fl, one, k);
    }
  }

  /** How many links resolving a path asks to follow. */
  function LinksOf(env: Env, top: seq<string>, from: seq<string>, path: string, fl: Flags): nat {
    if path == "" || |path| + 1 > PATH_MAX then 0 else Asked(env, top, fl, Start(top, from, false, path))
  }

  /** The walk comes through a settled directory to the text after it. */
  lemma {:induction false} Reach(env: Env, top: seq<string>, fl: Flags, c: seq<string>, k: nat, st: St, more: string)
    requires Settled(env, |top|, c, false) && AllNormal(c) && |Spell(c)| + 1 <= PATH_MAX && |top| <= k <= |c|
    requires st.canon == c[..k] && st.rest == Joined(c[k..]) + more && st.links <= MAX_LINKS && !st.gone
    requires more != "" && more[0] == '/' && !AllSlashes(more)
    ensures var st' := st.(canon := c, rest := more, depth := st.depth + |c| - k);
            Walk(env, top, fl, false, st) == Walk(env, top, fl, false, st') && Asked(env, top, fl, st) == Asked(env, top, fl, st')
    decreases |c| - k
  {
    hide Map, Stays, Spell, Joined, AllSlashes, Step, Finish, AsksLink, Skip;
    if k < |c| {
      ReachStep(env, top, fl, c, k, st, more);
      Reach(env, top, fl, c, k + 1, Step(env, top, fl, false, st).st, more);
    } else {
      assert c[..k] == c && c[k..] == [];
      assert Joined([]) == "" by { NoText(); }
      assert "" + more == more;
      assert st == st.(canon := c, rest := more, depth := st.depth + |c| - k);
    }
  }

  lemma {:induction false} ReachStep(env: Env, top: seq<string>, fl: Flags, c: seq<string>, k: nat, st: St, more: string)
    requires Settled(env, |top|, c, false) && AllNormal(c) && |Spell(c)| + 1 <= PATH_MAX && |top| <= k < |c|
    requires st.canon == c[..k] && st.rest == Joined(c[k..]) + more && st.links <= MAX_LINKS && !st.gone
    requires more != "" && more[0] == '/' && !AllSlashes(more)
    ensures Skip(st.rest) != ""
    ensures Step(env, top, fl, false, st)
            == Go(st.(canon := c[..k + 1], rest := Joined(c[k + 1..]) + more, depth := st.depth + 1))
  {
    hide Map, Spell, Joined, Skip, Span, Component, After;
    var pushed, x := c[..k + 1], Joined(c[k + 1..]) + more;
    NextText(c, k, more);
    assert c[..k] + [c[k]] == pushed && Normal(c[k]) && Stays(env, pushed, true);
    PushFits(c, k);
    var j :| 0 <= j < |more| && more[j] != '/';
    assert x[|Joined(c[k + 1..])| + j] != '/';
  }

  lemma {:induction false} NextText(c: seq<string>, k: nat, more: string)
    requires Names(c) && k < |c| && more != "" && more[0] == '/'
    ensures var s, x := Joined(c[k..]) + more, Joined(c[k + 1..]) + more;
            Skip(s) != "" && Component(s) == c[k] && After(s) == x
  {
    hide Skip, Component, After, Span;
    FirstName(c[k..]);
    assert c[k..][1..] == c[k + 1..] && [c[k]] + c[k + 1..] == c[k..] && [c[k]][..0] == [];
    JoinedConcat([c[k]], c[k + 1..]);
    assert Joined([c[k]]) == "/" + c[k];
    var x := Joined(c[k + 1..]) + more;
    assert Joined(c[k..]) + more == "/" + c[k] + x;
    FirstIs(c[k], x);
  }

  /** `c` + `name` is a link of the host's, outside /proc. */
  ghost predicate LinkAt(env: Env, c: seq<string>, name: string, target: string) {
    && Normal(name) && |Spell(c)| + 1 + |name| + 1 <= PATH_MAX
    && var m := Map(env, Spell(c + [name]));
       && m.Mapped? && !ProcHost(m.host) && env.magic(Spell(c + [name])) == NoMagic && env.link(m.host) == Some(target)
  }

  /** From the root through a directory to a link in it. */
  lemma {:induction false} ComesToLink(env: Env, top: seq<string>, from: seq<string>, fl: Flags, c: seq<string>, name: string,
                                       target: string, rest: string)
    requires Below(top, c) && Settled(env, |top|, c, false) && LinkAt(env, c, name, target) && (rest == "" || rest[0] == '/')
    requires var path := Joined(c[|top|..]) + "/" + name + rest;
             |path| + 1 <= PATH_MAX && !(AllSlashes(rest) && fl.nofollow && !WantsDir(path))
    ensures var path := Joined(c[|top|..]) + "/" + name + rest;
            var st := St(c, "/" + name + rest, 0, |c| - |top|, 0, WantsDir(path), false);
            && AtLink(env, fl, st, target) && After(st.rest) == rest
            && Resolve(env, top, from, false, path, fl, false) == Walk(env, top, fl, false, st)
  {
    hide Walk, Map, Settled, Skip, Span, WantsDir, Joined, Spell, DepthOf, Component, After, In;
    var path, more := Joined(c[|top|..]) + "/" + name + rest, "/" + name + rest;
    assert Joined(c[|top|..]) + more == path;
    FirstIs(name, rest);
    assert more[1] == name[0] && name[0] in name;
    StartsSlash(c[|top|..]);
    assert path[0] == '/';
    assert c[..|top|] == top;
    TopNames(top, c);
    RootDepth(top);
    Reach(env, top, fl, c, |top|, Start(top, from, false, path), more);
  }

  lemma {:induction false} TopNames(top: seq<string>, c: seq<string>)
    requires Below(top, c)
    ensures Names(top) && Names(c)
  {
    forall i | 0 <= i < |top| ensures Name(top[i]) { assert top[i] == c[..|top|][i] == c[i]; }
  }

  lemma {:induction false} StartsSlash(c: seq<string>)
    ensures Joined(c) == "" || Joined(c)[0] == '/'
  {
    if c != [] {
      JoinedPrefix(c, 0);
      assert c[..0] == [] && Joined([]) == "";
    }
  }

  /** Resolving a path through an absolute link is resolving the link's target
   with the rest of the path behind it, or refused for its links exactly when that
   asks for all forty or more. */
  lemma {:induction false} LinkIsItsTarget(env: Env, top: seq<string>, from: seq<string>, fl: Flags, c: seq<string>, name: string,
                                           target: string, rest: string)
    requires Below(top, c) && Settled(env, |top|, c, false) && LinkAt(env, c, name, target) && (rest == "" || rest[0] == '/')
    requires target != "" && target[0] == '/'
    requires var path := Joined(c[|top|..]) + "/" + name + rest;
             |path| + 1 <= PATH_MAX && !(AllSlashes(rest) && fl.nofollow && !WantsDir(path))
    ensures Resolve(env, top, from, false, Joined(c[|top|..]) + "/" + name + rest, fl, false)
            == if LinksOf(env, top, from, target + rest, fl) >= MAX_LINKS then Err(ELOOP)
               else Resolve(env, top, from, false, target + rest, fl, false)
  {
    hide Walk, Asked, Map, Settled, WantsDir, Joined, Spell, DepthOf, LinkAt, AtLink, Skip, After, AllSlashes;
    var path := Joined(c[|top|..]) + "/" + name + rest;
    var st := St(c, "/" + name + rest, 0, |c| - |top|, 0, WantsDir(path), false);
    ComesToLink(env, top, from, fl, c, name, target, rest);
    TopNames(top, c);
    LinkMeansTarget(env, top, fl, st, target);
    var t := Start(top, [], false, target + rest).(links := 1);
    if |target + rest| + 1 <= PATH_MAX {
      OneLinkMore(env, top, fl, t.(links := 0));
      assert t.(links := 0) == Start(top, from, false, target + rest);
    }
  }

  /** A slash in front of the text is skipped. */
  lemma {:induction false} LeadingSlash(env: Env, top: seq<string>, fl: Flags, st: St)
    requires st.links <= MAX_LINKS
    ensures Walk(env, top, fl, false, st.(rest := "/" + st.rest)) == Walk(env, top, fl, false, st)
    ensures Asked(env, top, fl, st.(rest := "/" + st.rest)) == Asked(env, top, fl, st)
  {
    hide Step, AsksLink, Finish;
    assert ("/" + st.rest)[1..] == st.rest;
    assert Skip("/" + st.rest) == Skip(st.rest);
    hide Skip;
    if Skip(st.rest) != "" { SameText(env, top, fl, st, "/" + st.rest); }
    FinishSame(env, fl, st, "/" + st.rest);
  }

  /** A step reads the text from its first component on, */
  lemma {:induction false} SameText(env: Env, top: seq<string>, fl: Flags, st: St, text: string)
    requires st.links <= MAX_LINKS && Skip(text) == Skip(st.rest) != ""
    ensures Step(env, top, fl, false, st.(rest := text)) == Step(env, top, fl, false, st)
    ensures AsksLink(env, fl, st.(rest := text)) == AsksLink(env, fl, st)
  {
    hide Map, Skip, Span, Up, Down, Followed, Spell, AllSlashes;
    assert Component(text) == Component(st.rest) && After(text) == After(st.rest);
  }

  /** and the end of the walk none. */
  lemma {:induction false} FinishSame(env: Env, fl: Flags, st: St, text: string)
    ensures Finish(env, fl, false, st.(rest := text)) == Finish(env, fl, false, st)
  {
    hide Map, Spell;
  }

  lemma {:induction false} WantsSame(pre: string, text: string)
    requires text != ""
    ensures WantsDir(pre + "/" + text) == WantsDir(text)
  {
    var s := pre + "/" + text;
    assert s[|pre|..] == "/" + text && s[|s| - 1] == text[|text| - 1];
    PathFast.LastNameSuffix(s, |pre|);
    if '/' in text {
      assert ("/" + text)[1..] == text;
      PathFast.LastNameSuffix("/" + text, 1);
    } else {
      assert "/" + text == ['/'] + text;
      PathFast.LastNameJoint(text);
    }
  }

  /** Resolving a path through a relative link is resolving the target, from the
   directory the link is in, with the rest of the path behind it, or refused for its
   links exactly when that asks for all forty or more. */
  lemma {:induction false} LinkIsItsPlace(env: Env, top: seq<string>, from: seq<string>, fl: Flags, c: seq<string>, name: string,
                                          target: string, rest: string)
    requires Below(top, c) && Settled(env, |top|, c, false) && LinkAt(env, c, name, target) && (rest == "" || rest[0] == '/')
    requires target != "" && target[0] != '/' && |Joined(c[|top|..]) + "/" + target + rest| + 1 <= PATH_MAX
    requires var path := Joined(c[|top|..]) + "/" + name + rest;
             |path| + 1 <= PATH_MAX && !(AllSlashes(rest) && fl.nofollow && !WantsDir(path))
    ensures var dir := Joined(c[|top|..]);
            Resolve(env, top, from, false, dir + "/" + name + rest, fl, false)
            == if LinksOf(env, top, from, dir + "/" + target + rest, fl) >= MAX_LINKS then Err(ELOOP)
               else Resolve(env, top, from, false, dir + "/" + target + rest, fl, false)
  {
    hide Walk, Asked, Map, Settled, WantsDir, Joined, Spell, DepthOf, LinkAt, AtLink, Skip, After;
    var dir, text := Joined(c[|top|..]), target + rest;
    var path := dir + "/" + name + rest;
    var st := St(c, "/" + name + rest, 0, |c| - |top|, 0, WantsDir(path), false);
    ComesToLink(env, top, from, fl, c, name, target, rest);
    TopNames(top, c);
    LinkMeansTarget(env, top, fl, st, target);
    var t := st.(rest := text, links := 0, wantDir := WantsDir(text));
    OneLinkMore(env, top, fl, t);
    assert dir + "/" + target + rest == dir + "/" + text;
    ComesToText(env, top, from, fl, c, text);
    hide Resolve, LinksOf;
  }

  /** From the root through a directory to whatever text is behind it. */
  lemma {:induction false} ComesToText(env: Env, top: seq<string>, from: seq<string>, fl: Flags, c: seq<string>, text: string)
    requires Below(top, c) && Settled(env, |top|, c, false) && text != "" && text[0] != '/'
    requires |Joined(c[|top|..]) + "/" + text| + 1 <= PATH_MAX
    ensures var path, st := Joined(c[|top|..]) + "/" + text, St(c, text, 0, |c| - |top|, 0, WantsDir(text), false);
            && Resolve(env, top, from, false, path, fl, false) == Walk(env, top, fl, false, st)
            && LinksOf(env, top, from, path, fl) == Asked(env, top, fl, st)
  {
    hide Walk, Asked, Map, Settled, WantsDir, Joined, Spell, DepthOf, Skip, After;
    var dir := Joined(c[|top|..]);
    var path, st := dir + "/" + text, St(c, text, 0, |c| - |top|, 0, WantsDir(text), false);
    assert path == dir + ("/" + text);
    LeadingSlash(env, top, fl, st);
    WantsSame(dir, text);
    StartsSlash(c[|top|..]);
    assert path[0] == '/' && ("/" + text)[1] != '/' && c[..|top|] == top;
    TopNames(top, c);
    RootDepth(top);
    Reach(env, top, fl, c, |top|, Start(top, from, false, path), "/" + text);
  }

  // ------------------------------------------------------------ ".."

  /** A name that is no link, followed by "..": nothing if it is a directory, ENOTDIR
   if it is something else, and the error of looking if it is not there. */
  lemma {:induction false} NameAndBack(env: Env, top: seq<string>, fl: Flags, st: St, name: string, rest: string)
    requires Contained(top, st) && !st.gone && st.links <= MAX_LINKS && Normal(name) && (rest == "" || rest[0] == '/')
    requires |Spell(st.canon)| + 1 + |name| + 1 <= PATH_MAX && Stays(env, st.canon + [name], true)
    requires st.rest == "/" + name + "/.." + rest
    ensures var r := Walk(env, top, fl, false, st);
            match env.kind(Map(env, Spell(st.canon + [name])).host)
            case Directory => r == Walk(env, top, fl, false, st.(rest := rest))
            case NoDirectory => r == Err(ENOTDIR)
            case Missing(e) => r == Err(e)
  {
    hide Map, Skip, Component, After, Spell, In;
    var pushed := st.canon + [name];
    if env.kind(Map(env, Spell(pushed)).host) == Directory {
      DirectoryAndBack(env, top, fl, st, name, rest);
    } else {
      assert st.rest == "/" + name + ("/.." + rest);
      FirstIs(name, "/.." + rest);
      assert "/.." + rest == "/" + ".." + rest;
      FirstIs("..", rest);
      assert ("/.." + rest)[1] == '.';
      var mid := st.(canon := pushed, rest := "/.." + rest, depth := st.depth + 1);
      assert Step(env, top, fl, false, st) == Go(mid);
      assert pushed != top;
    }
  }

  /** "." is nothing, and so is ".." at the root. */
  lemma {:induction false} DotIsNothing(env: Env, top: seq<string>, fl: Flags, st: St, rest: string)
    requires st.links <= MAX_LINKS && !st.gone && (rest == "" || rest[0] == '/')
    ensures st.rest == "/." + rest ==> Walk(env, top, fl, false, st) == Walk(env, top, fl, false, st.(rest := rest))
    ensures st.rest == "/.." + rest && st.canon == top ==>
              Walk(env, top, fl, false, st) == Walk(env, top, fl, false, st.(rest := rest))
  {
    hide Map, Skip, Component, After, Spell, In;
    assert "/." + rest == "/" + "." + rest && "/.." + rest == "/" + ".." + rest;
    FirstIs(".", rest);
    FirstIs("..", rest);
  }

  /** A name that is a directory and no link, followed by "..", is nothing. */
  lemma {:induction false} DirectoryAndBack(env: Env, top: seq<string>, fl: Flags, st: St, name: string, rest: string)
    requires Contained(top, st) && !st.gone && st.links <= MAX_LINKS && Normal(name) && (rest == "" || rest[0] == '/')
    requires |Spell(st.canon)| + 1 + |name| + 1 <= PATH_MAX
    requires Stays(env, st.canon + [name], true) && env.kind(Map(env, Spell(st.canon + [name])).host) == Directory
    requires st.rest == "/" + name + "/.." + rest
    ensures Walk(env, top, fl, false, st) == Walk(env, top, fl, false, st.(rest := rest))
  {
    hide Map, Skip, Component, After, Spell, In;
    var pushed := st.canon + [name];
    assert st.rest == "/" + name + ("/.." + rest);
    FirstIs(name, "/.." + rest);
    assert "/.." + rest == "/" + ".." + rest;
    FirstIs("..", rest);
    assert ("/.." + rest)[1] == '.';
    var mid := st.(canon := pushed, rest := "/.." + rest, depth := st.depth + 1);
    assert Step(env, top, fl, false, st) == Go(mid);
    assert Parent(pushed) == st.canon && pushed != top;
    assert Step(env, top, fl, false, mid) == Go(st.(rest := rest));
  }
}
