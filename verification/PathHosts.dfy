/**
 Where a path is on the host, component by component: which mount takes it and
 what becomes of the rest of it, and that a whole resolution ends there.
 */
module PathHosts {
  import opened Options
  import opened PathNames
  import opened PathWalk
  import opened PathLaws
  import PathFast
  import BindTable

  // ------------------------------------------------------------ prefixes

  /** The names of `g` are the first of `c`. */
  predicate Leads(g: seq<string>, c: seq<string>) { |g| <= |c| && c[..|g|] == g }

  /** A spelling that leads another at a component boundary is that of its first
   names. */
  lemma {:induction false} BoundaryIsPrefix(g: seq<string>, c: seq<string>)
    requires Names(g) && Names(c)
    requires |Joined(g)| <= |Joined(c)| && Joined(c)[..|Joined(g)|] == Joined(g)
    requires |Joined(g)| == |Joined(c)| || Joined(c)[|Joined(g)|] == '/'
    ensures Leads(g, c)
  {
    if |Joined(g)| == |Joined(c)| {
      assert Joined(c)[..|Joined(c)|] == Joined(c);
      JoinedInjective(g, c);
      assert c[..|c|] == c;
    } else {
      var front, last := c[..|c| - 1], c[|c| - 1];
      assert c == front + [last];
      JoinedStep(front, last);
      var s := Joined(c);
      SlashNoLater(s, Joined(front), last, |Joined(g)|);
      assert s[..|Joined(g)|] == Joined(front)[..|Joined(g)|];
      assert |Joined(g)| < |Joined(front)| ==> s[|Joined(g)|] == Joined(front)[|Joined(g)|];
      BoundaryIsPrefix(g, front);
      assert c[..|g|] == front[..|g|];
    }
  }

  /** A mount point covers a path exactly when its names are the path's first. */
  lemma {:induction false} CoversMeans(g: seq<string>, c: seq<string>)
    requires Names(g) && Names(c) && g != []
    ensures BindTable.Covers(Spell(g), Spell(c)) <==> Leads(g, c)
    ensures In(Spell(g), Spell(c)) <==> Leads(g, c)
    ensures Leads(g, c) ==> Spell(c)[|Spell(g)|..] == Joined(c[|g|..])
  {
    if c == [] {
      SpellLength(g);
    } else {
      if BindTable.Covers(Spell(g), Spell(c)) { BoundaryIsPrefix(g, c); }
      if Leads(g, c) {
        JoinedPrefix(c, |g|);
        assert c == g + c[|g|..];
        JoinedConcat(g, c[|g|..]);
      }
    }
  }

  /** The mounts of the list, by the names of their points. */
  predicate MountedAt(ms: seq<BindTable.Mount>, gs: seq<seq<string>>) {
    |gs| == |ms| && forall j :: 0 <= j < |ms| ==> Names(gs[j]) && gs[j] != [] && ms[j].guest == Spell(gs[j])
  }

  /** Of the mounts above a path, the one with the most names, the latest of those. */
  predicate Nearest(gs: seq<seq<string>>, c: seq<string>, k: int) {
    && 0 <= k < |gs| && Leads(gs[k], c)
    && forall j :: 0 <= j < |gs| && Leads(gs[j], c) ==> |gs[j]| < |gs[k]| || (|gs[j]| == |gs[k]| && j <= k)
  }

  lemma {:induction false} LongerName(a: seq<string>, b: seq<string>, c: seq<string>)
    requires Leads(a, c) && Leads(b, c) && a != [] && b != []
    ensures |Spell(a)| < |Spell(b)| <==> |a| < |b|
    ensures |Spell(a)| == |Spell(b)| <==> |a| == |b|
  {
    if |a| < |b| {
      assert b[..|a|] == c[..|b|][..|a|] == c[..|a|] == a;
      JoinedPrefix(b, |a|);
    } else if |b| < |a| {
      assert a[..|b|] == c[..|a|][..|b|] == c[..|b|] == b;
      JoinedPrefix(a, |b|);
    } else {
      assert a == b;
    }
  }

  lemma {:induction false} WinsMeans(ms: seq<BindTable.Mount>, gs: seq<seq<string>>, c: seq<string>, k: int)
    requires MountedAt(ms, gs) && Names(c)
    ensures BindTable.Wins(ms, Spell(c), k) <==> Nearest(gs, c, k)
  {
    hide BindTable.Covers, Leads, Spell, Names;
    if 0 <= k < |ms| {
      forall j | 0 <= j < |ms|
        ensures BindTable.Covers(ms[j].guest, Spell(c)) <==> Leads(gs[j], c)
        ensures Leads(gs[j], c) && Leads(gs[k], c) ==>
                  && (|ms[j].guest| < |ms[k].guest| <==> |gs[j]| < |gs[k]|)
                  && (|ms[j].guest| == |ms[k].guest| <==> |gs[j]| == |gs[k]|)
      {
        CoversMeans(gs[j], c);
        if Leads(gs[j], c) && Leads(gs[k], c) { LongerName(gs[j], gs[k], c); }
      }
    }
  }

  // ------------------------------------------------------------ canon_to_host

  /** The path of a host file within the root file system. */
  function Within(env: Env, host: string): string
    requires In(env.rootfs, host)
  {
    if host == env.rootfs then "/" else host[|env.rootfs|..]
  }

  /** Below a mount a path is the mount's directory and the rest of it; what leads
   back into the root file system is where its zones have it. */
  lemma {:induction false} MountedHost(env: Env, canon: string, h: string, rest: string)
    requires BindTable.Resolves(env.mounts, canon, Some((h, rest)))
    ensures Map(env, canon) == if |h + rest| + 1 > PATH_MAX then TooLong
                               else if env.rootfs != "" && In(env.rootfs, h + rest) && env.special(Within(env, h + rest)).Some?
                               then Mapped(env.special(Within(env, h + rest)).value, false)
                               else Mapped(h + rest, false)
  {
    var k :| BindTable.Wins(env.mounts, canon, k) && (h, rest) == (env.mounts[k].host, canon[|env.mounts[k].guest|..]);
    var w := Winner(env.mounts, canon);
    assert w.Some?;
    BindTable.OneWinner(env.mounts, canon, w.value, k);
    if In(env.rootfs, h + rest) && |h + rest| == |env.rootfs| { assert (h + rest)[..|env.rootfs|] == h + rest; }
  }

  /** Below none it is the zone's, or in the root file system. */
  lemma {:induction false} UnmountedHost(env: Env, canon: string)
    requires BindTable.Resolves(env.mounts, canon, None) && canon != ""
    ensures Map(env, canon) == if env.special(canon).Some? then Mapped(env.special(canon).value, false)
                               else if |env.rootfs + canon| + 1 > PATH_MAX then TooLong
                               else if |canon| > 1 then Mapped(env.rootfs + canon, true)
                               else if env.rootfs == "" then Mapped("/", true) else Mapped(env.rootfs, true)
  {
    hide BindTable.Covers;
    assert env.rootfs + "" == env.rootfs;
  }

  /** The host file of a path below a mount at `gs[k]`: its directory, and the names
   after the mount point. */
  lemma {:induction false} BelowMount(env: Env, gs: seq<seq<string>>, c: seq<string>, k: nat)
    requires MountedAt(env.mounts, gs) && Names(c) && Nearest(gs, c, k)
    requires var host := env.mounts[k].host + Joined(c[|gs[k]|..]);
             |host| + 1 <= PATH_MAX && !(env.rootfs != "" && In(env.rootfs, host))
    ensures Map(env, Spell(c)) == Mapped(env.mounts[k].host + Joined(c[|gs[k]|..]), false)
  {
    hide Map, In, BindTable.Covers;
    WinsMeans(env.mounts, gs, c, k);
    CoversMeans(gs[k], c);
    MountedHost(env, Spell(c), env.mounts[k].host, Joined(c[|gs[k]|..]));
  }

  /** A path none of whose names is a link opens, below a mount, the file of those
   names in the mount's directory. */
  lemma {:induction false} MountedFile(env: Env, top: seq<string>, from: seq<string>, gs: seq<seq<string>>, c: seq<string>, k: nat,
                                       fl: Flags)
    requires Below(top, c) && |top| < |c| && Settled(env, |top|, c, true)
    requires MountedAt(env.mounts, gs) && Nearest(gs, c, k)
    requires var host := env.mounts[k].host + Joined(c[|gs[k]|..]);
             |host| + 1 <= PATH_MAX && !(env.rootfs != "" && In(env.rootfs, host))
    ensures Resolve(env, top, from, false, Spell(c[|top|..]), fl, false)
            == Resolved(c, env.mounts[k].host + Joined(c[|gs[k]|..]))
  {
    hide Walk, Map, Settled, Skip, WantsDir, Joined, DepthOf, Spell, In, MountedAt, Nearest;
    TopNames(top, c);
    BelowMount(env, gs, c, k);
    TailFits(top, c);
    PathFast.WantsNoDir(c[|top|..]);
    assert c[..|top|] == top;
    Rewalk(env, top, fl, c, |top|, Start(top, from, false, Spell(c[|top|..])));
  }

  // ------------------------------------------------------------ the end of a path

  /** A settled path with slashes behind it: the walk ends there. */
  lemma {:induction false} RewalkSlash(env: Env, top: seq<string>, fl: Flags, c: seq<string>, k: nat, st: St)
    requires Settled(env, |top|, c, true) && AllNormal(c) && |Spell(c)| + 1 <= PATH_MAX && |top| <= k <= |c|
    requires st.canon == c[..k] && st.rest == Joined(c[k..]) + "/" && st.links <= MAX_LINKS && !st.gone
    ensures Walk(env, top, fl, false, st) == Finish(env, fl, false, st.(canon := c))
    decreases |c| - k
  {
    hide Map, Stays, Spell, Joined, AllSlashes, Step, Finish, Skip;
    if k < |c| {
      RewalkSlashStep(env, top, fl, c, k, st);
      RewalkSlash(env, top, fl, c, k + 1, Step(env, top, fl, false, st).st);
      FinishOnly(env, fl, st.(canon := c), Step(env, top, fl, false, st).st.(canon := c));
    } else {
      assert c[..k] == c && c[k..] == [];
      assert st.rest == "/" && Skip("/") == "" by { NoText(); OnlySlash(); }
      assert st.(canon := c) == st;
    }
  }

  lemma {:induction false} OnlySlash()
    ensures Skip("/") == "" && "" + "/" == "/"
  {
    assert AllSlashes("/");
  }

  lemma {:induction false} FinishOnly(env: Env, fl: Flags, st: St, st': St)
    requires st'.canon == st.canon && st'.wantDir == st.wantDir && st'.gone == st.gone
    ensures Finish(env, fl, false, st') == Finish(env, fl, false, st)
  {
    hide Map, Spell;
  }

  lemma {:induction false} RewalkSlashStep(env: Env, top: seq<string>, fl: Flags, c: seq<string>, k: nat, st: St)
    requires Settled(env, |top|, c, true) && AllNormal(c) && |Spell(c)| + 1 <= PATH_MAX && |top| <= k < |c|
    requires st.canon == c[..k] && st.rest == Joined(c[k..]) + "/" && st.links <= MAX_LINKS && !st.gone
    ensures Skip(st.rest) != ""
    ensures Step(env, top, fl, false, st)
            == Go(st.(canon := c[..k + 1], rest := Joined(c[k + 1..]) + "/", depth := st.depth + 1))
  {
    hide Map, Spell, Joined, Skip, Span, Component, After;
    var pushed, x := c[..k + 1], Joined(c[k + 1..]) + "/";
    NextText(c, k, "/");
    assert c[..k] + [c[k]] == pushed && Normal(c[k]) && Stays(env, pushed, k + 1 < |c|);
    PushFits(c, k);
    SlashesLeft(c[k + 1..]);
  }

  /** Only slashes are left exactly when no name is. */
  lemma {:induction false} SlashesLeft(cs: seq<string>)
    requires Names(cs)
    ensures AllSlashes(Joined(cs) + "/") <==> cs == []
  {
    hide Joined, Component, After;
    if cs != [] {
      FirstName(cs);
      var s := Joined(cs);
      var i :| 0 <= i < |s| && s[i] != '/';
      assert (s + "/")[i] != '/';
    } else {
      assert Joined([]) == "" by { NoText(); }
    }
  }

  /** A slash behind a path asks for a directory: there being a file is ENOTDIR, a
   call that would create one there EISDIR, and otherwise the path is the same. */
  lemma {:induction false} SlashAsksDirectory(env: Env, top: seq<string>, from: seq<string>, c: seq<string>, fl: Flags)
    requires Below(top, c) && |top| < |c| && Settled(env, |top|, c, true) && Map(env, Spell(c)).Mapped?
    requires |Spell(c[|top|..])| + 2 <= PATH_MAX
    ensures var host, r := Map(env, Spell(c)).host, Resolve(env, top, from, false, Spell(c[|top|..]) + "/", fl, false);
            match env.kind(host)
            case Directory => r == Resolved(c, host)
            case NoDirectory => r == Err(ENOTDIR)
            case Missing(_) => r == if fl.creating then Err(EISDIR) else Resolved(c, host)
  {
    hide Walk, Map, Settled, Skip, Joined, DepthOf, Spell;
    TailFits(top, c);
    assert c[..|top|] == top;
    var text := Spell(c[|top|..]) + "/";
    assert text[|text| - 1] == '/';
    RewalkSlash(env, top, fl, c, |top|, Start(top, from, false, text));
  }

  /** So does a final ".". */
  lemma {:induction false} DotAsksDirectory(env: Env, top: seq<string>, from: seq<string>, c: seq<string>, fl: Flags)
    requires Below(top, c) && |top| < |c| && Settled(env, |top|, c, false) && Map(env, Spell(c)).Mapped?
    requires |Joined(c[|top|..]) + "/."| + 1 <= PATH_MAX
    ensures var host, r := Map(env, Spell(c)).host, Resolve(env, top, from, false, Joined(c[|top|..]) + "/.", fl, false);
            match env.kind(host)
            case Directory => r == Resolved(c, host)
            case NoDirectory => r == Err(ENOTDIR)
            case Missing(_) => r == if fl.creating then Err(EISDIR) else Resolved(c, host)
  {
    hide Map, Settled, Skip, Joined, DepthOf, Spell, Resolve, LinksOf, Step, WantsDir;
    assert Joined(c[|top|..]) + "/." == Joined(c[|top|..]) + "/" + ".";
    ComesToText(env, top, from, fl, c, ".");
    OneDot();
    var st := St(c, ".", 0, |c| - |top|, 0, true, false);
    LeadingSlash(env, top, fl, st);
    DotIsNothing(env, top, fl, st.(rest := "/."), "");
    assert Skip("") == "" by { NoText(); }
    assert Walk(env, top, fl, false, st.(rest := "")) == Finish(env, fl, false, st.(rest := ""));
  }

  lemma {:induction false} OneDot()
    ensures WantsDir(".") && "/" + "." == "/." && "/." + "" == "/."
  {
    assert LastName(".") == LastName("") + ['.'] == ".";
  }

  /** Without one, whatever is there will do. */
  lemma {:induction false} NoSlashAsksNothing(env: Env, top: seq<string>, from: seq<string>, c: seq<string>, fl: Flags)
    requires Below(top, c) && |top| < |c| && Settled(env, |top|, c, true) && Map(env, Spell(c)).Mapped?
    ensures Resolve(env, top, from, false, Spell(c[|top|..]), fl, false) == Resolved(c, Map(env, Spell(c)).host)
  {
    hide Walk, Map, Settled, Skip, WantsDir, Joined, DepthOf, Spell;
    TailFits(top, c);
    PathFast.WantsNoDir(c[|top|..]);
    assert c[..|top|] == top;
    Rewalk(env, top, fl, c, |top|, Start(top, from, false, Spell(c[|top|..])));
  }

  /** A call that does not follow gets the link itself, unless a slash is behind it. */
  lemma {:induction false} LinkItself(env: Env, top: seq<string>, from: seq<string>, fl: Flags, c: seq<string>, name: string,
                                      target: string)
    requires Below(top, c) && Settled(env, |top|, c, false) && LinkAt(env, c, name, target) && fl.nofollow
    requires var path := Joined(c[|top|..]) + "/" + name; |path| + 1 <= PATH_MAX && !WantsDir(path)
    ensures Resolve(env, top, from, false, Joined(c[|top|..]) + "/" + name, fl, false)
            == Resolved(c + [name], Map(env, Spell(c + [name])).host)
  {
    hide Map, Settled, Skip, Span, WantsDir, Joined, Spell, DepthOf, Component, After, In;
    var path, more := Joined(c[|top|..]) + "/" + name, "/" + name;
    assert Joined(c[|top|..]) + more == path && more == "/" + name + "";
    FirstIs(name, "");
    assert more[1] == name[0] && name[0] in name;
    PathLaws.StartsSlash(c[|top|..]);
    assert path[0] == '/' && c[..|top|] == top;
    TopNames(top, c);
    RootDepth(top);
    var st := Start(top, from, false, path);
    Reach(env, top, fl, c, |top|, st, more);
    assert Skip("") == "" && AllSlashes("");
  }
}
