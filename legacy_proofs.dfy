/** What the older walker of index.js guarantees. */
module LegacyProofs {
  import opened FsModel
  import opened Legacy

  /** What the walk below a child contributes: the listed directory's own
      walk, and nothing for anything else, a symbolic link to a directory
      included. */
  function Subtree(h: Host, o: Options, d: Dirent, path: string, fuel: nat): Trace {
    if !d.isDir then Done([])
    else if fuel == 0 then Trace([], OutOfFuel)
    else WalkDir(h, o, path, fuel - 1)
  }

  /** The child passes both filters. */
  predicate Passes(h: Host, o: Options, d: Dirent, path: string) {
    !IsExcluded(h, path, o.excludes, Some(o.minimatch)) && IsIncluded(h, d, h.decode(d.name), o)
  }

  // ---------------------------------------------------------------------
  // Filters

  /** With no patterns the filters let everything through and withhold
      nothing; a directory always passes the include check, and is withheld
      from the output exactly when include patterns are set. */
  lemma FilterDefaults(h: Host, path: string, d: Dirent, name: string, o: Options, mm: Option<MinimatchOpts>)
    ensures !HasPatterns(o.excludes) ==> !IsExcluded(h, path, o.excludes, mm)
    ensures !HasPatterns(o.includes) ==> IsIncluded(h, d, name, o) && CanInclude(d, o.includes)
    ensures d.isDir ==> IsIncluded(h, d, name, o)
    ensures !CanInclude(d, o.includes) <==> HasPatterns(o.includes) && d.isDir
  {
  }

  lemma {:induction false} LastSegmentAppend(p: string, ch: char)
    requires ch != '/'
    ensures LastSegment(p + [ch]) == LastSegment(p) + [ch]
  {
    assert (p + [ch])[..|p|] == p;
  }

  lemma {:induction false} LastSegmentPlain(name: string)
    requires '/' !in name
    ensures LastSegment(name) == name
    decreases |name|
  {
    if name != [] {
      var init := name[..|name| - 1];
      LastSegmentPlain(init);
      assert name == init + [name[|name| - 1]];
    }
  }

  /** A name without '/' is its own basename. */
  lemma BasenamePlain(name: string)
    requires name != [] && '/' !in name
    ensures Basename(name) == name
  {
    assert name[|name| - 1] in name;
    LastSegmentPlain(name);
  }

  lemma {:induction false} LastSegmentAfterSep(dir: string, name: string)
    requires '/' !in name
    ensures LastSegment(dir + [Sep] + name) == name
    decreases |name|
  {
    if name == [] {
      assert dir + [Sep] + name == dir + [Sep];
    } else {
      var init := name[..|name| - 1];
      var last := name[|name| - 1];
      assert dir + [Sep] + name == (dir + [Sep] + init) + [last];
      LastSegmentAppend(dir + [Sep] + init, last);
      LastSegmentAfterSep(dir, init);
      assert name == init + [last];
    }
  }

  /** `path.basename` of a path made by joining a directory and a plain
      name (not empty, no '/') gives the name back. */
  lemma BasenameOfJoined(dir: string, name: string)
    requires name != [] && '/' !in name
    ensures Basename(dir + [Sep] + name) == name
  {
    var p := dir + [Sep] + name;
    assert p[|p| - 1] == name[|name| - 1];
    assert TrimTrailingSlashes(p) == p;
    LastSegmentAfterSep(dir, name);
  }

  // ---------------------------------------------------------------------
  // One child

  /** A child that fails either filter yields nothing and is not descended
      into. One that passes and does not throw yields its own entries, then
      the walk below it, which happens exactly when the listing calls it a
      directory; the stat result plays no part in that. */
  lemma ChildRecursion(h: Host, o: Options, dir: string, d: Dirent, fuel: nat)
    ensures
      var path := h.join(dir, h.decode(d.name));
      var t := Child(h, o, dir, d, fuel);
      && (!Passes(h, o, d, path) ==> t == Done([]))
      && (Passes(h, o, d, path) && !(o.stats && o.strict && Probe(h, o, path).StatFailed?) ==>
            t == Prepend(OwnEntries(h, o, d, path), Subtree(h, o, d, path, fuel)))
  {
  }

  /** With `stats` on, a child that passes the filters: a successful stat
      gives the entry with its stats (unless the child is a directory
      withheld by include patterns); a failed stat in non-strict mode gives
      the error entry only; in strict mode it throws before yielding. */
  lemma StatsOutcome(h: Host, o: Options, dir: string, d: Dirent, fuel: nat)
    requires o.stats
    requires Passes(h, o, d, h.join(dir, h.decode(d.name)))
    ensures
      var path := h.join(dir, h.decode(d.name));
      var probe := Probe(h, o, path);
      var t := Child(h, o, dir, d, fuel);
      && (probe.StatOk? ==>
            OwnEntries(h, o, d, path) ==
              (if CanInclude(d, o.includes) then [Ok(Text(path), d.isDir, d.isLink, StatsKey(Some(probe.info)))] else []))
      && (probe.StatFailed? && !o.strict ==> OwnEntries(h, o, d, path) == [Err(Text(path), probe.err)])
      && (probe.StatFailed? && o.strict ==> t == Trace([], Raised(probe.err)))
  {
  }

  /** With `stats` off (the default) no stat is made: an entry that
      passes the filters yields the listing-based record without a `stats`
      key, unless it is a directory withheld by include patterns. */
  lemma NoStatsRecord(h: Host, o: Options, d: Dirent, path: string)
    requires !o.stats
    ensures OwnEntries(h, o, d, path) ==
      (if CanInclude(d, o.includes) then [Ok(Text(path), d.isDir, d.isLink, NoStatsKey)] else [])
  {
  }

  /** Once a prefix of the listing stops the walk (a throw or the depth
      bound), the remaining entries are never visited. */
  lemma {:induction false} ChildrenStopEarly(h: Host, o: Options, dir: string, ds: seq<Dirent>, k: nat, fuel: nat)
    requires k <= |ds|
    requires WalkChildren(h, o, dir, ds[..k], fuel).stop != Finished
    ensures WalkChildren(h, o, dir, ds, fuel) == WalkChildren(h, o, dir, ds[..k], fuel)
    decreases |ds| - k
  {
    if k < |ds| {
      var init := ds[..|ds| - 1];
      assert init[..k] == ds[..k];
      ChildrenStopEarly(h, o, dir, init, k, fuel);
    } else {
      assert ds[..k] == ds;
    }
  }

  // ---------------------------------------------------------------------
  // Whole walks

  /** A starting directory excluded under the caller's own options (their
      minimatch flags, `undefined` unless given) gives an empty result,
      whatever the filesystem holds: it is not read. */
  lemma ExcludedRoot(h: Host, dir: string, user: UserOptions, fuel: nat, other: Fs)
    ensures IsExcluded(h, dir, user.excludes, user.minimatch) ==>
      Walk(h, dir, user, fuel) == Done([]) && Walk(h.(fs := other), dir, user, fuel) == Done([])
  {
  }

  /** A starting directory that the caller's own options do not exclude
      and that cannot be listed: strict mode throws; otherwise the result is
      that one error entry, whatever the merged options' matcher would say
      of it. */
  lemma UnreadableDir(h: Host, dir: string, user: UserOptions, fuel: nat)
    requires !IsExcluded(h, dir, user.excludes, user.minimatch)
    requires h.fs.readdir(Text(dir)).ListFailed?
    ensures
      var e := h.fs.readdir(Text(dir)).err;
      var t := Walk(h, dir, user, fuel);
      && (user.strict == Some(true) ==> t == Trace([], Raised(e)) && Collect(t) == Threw(e))
      && (user.strict != Some(true) ==> t == Done([Err(Text(dir), e)]))
  {
  }

  /** What holds of every entry: an error entry only outside strict mode;
      while include patterns are set no directory is in the output; a
      `stats` key is there exactly when the `stats` option is on, and then
      it holds a real stat result. */
  predicate GoodEntry(o: Options, e: Entry) {
    && (e.Err? ==> !o.strict)
    && (e.Ok? ==>
      && (HasPatterns(o.includes) ==> !e.directory)
      && (e.stats.StatsKey? <==> o.stats)
      && (e.stats.StatsKey? ==> e.stats.value.Some?))
  }

  lemma {:induction false} WalkDirEntries(h: Host, o: Options, dir: string, fuel: nat)
    ensures forall e | e in WalkDir(h, o, dir, fuel).out :: GoodEntry(o, e)
    decreases fuel, 3, 0
  {
    if !IsExcluded(h, dir, o.excludes, Some(o.minimatch)) {
      ListDirEntries(h, o, dir, fuel);
    }
  }

  lemma {:induction false} ListDirEntries(h: Host, o: Options, dir: string, fuel: nat)
    ensures forall e | e in ListDir(h, o, dir, fuel).out :: GoodEntry(o, e)
    decreases fuel, 2, 0
  {
    match h.fs.readdir(Text(dir))
    case ListFailed(_) =>
    case Listed(ds) => WalkChildrenEntries(h, o, dir, ds, fuel);
  }

  lemma {:induction false} WalkChildrenEntries(h: Host, o: Options, dir: string, ds: seq<Dirent>, fuel: nat)
    ensures forall e | e in WalkChildren(h, o, dir, ds, fuel).out :: GoodEntry(o, e)
    decreases fuel, 1, |ds|
  {
    if ds != [] {
      WalkChildrenEntries(h, o, dir, ds[..|ds| - 1], fuel);
      ChildEntries(h, o, dir, ds[|ds| - 1], fuel);
    }
  }

  lemma {:induction false} ChildEntries(h: Host, o: Options, dir: string, d: Dirent, fuel: nat)
    ensures forall e | e in Child(h, o, dir, d, fuel).out :: GoodEntry(o, e)
    decreases fuel, 0, 0
  {
    var path := h.join(dir, h.decode(d.name));
    ChildRecursion(h, o, dir, d, fuel);
    if Passes(h, o, d, path) && !(o.stats && o.strict && Probe(h, o, path).StatFailed?) {
      assert forall e | e in OwnEntries(h, o, d, path) :: GoodEntry(o, e);
      if d.isDir && fuel > 0 {
        WalkDirEntries(h, o, path, fuel - 1);
      }
    }
  }

  /** While include patterns are set, no directory entry is ever produced;
      with `stats` off (the default) no entry carries a `stats` key. */
  lemma DirectoriesWithheld(h: Host, dir: string, user: UserOptions, fuel: nat)
    ensures forall e | e in Walk(h, dir, user, fuel).out && e.Ok? ::
      && (HasPatterns(user.includes) ==> !e.directory)
      && (e.stats.StatsKey? <==> user.stats == Some(true))
  {
    ListDirEntries(h, WithDefaults(user), dir, fuel);
  }

  /** In strict mode every failure throws, so no error entry is ever produced. */
  lemma StrictRecordsOk(h: Host, dir: string, user: UserOptions, fuel: nat)
    requires user.strict == Some(true)
    ensures forall e | e in Walk(h, dir, user, fuel).out :: e.Ok?
  {
    ListDirEntries(h, WithDefaults(user), dir, fuel);
  }

  // ---------------------------------------------------------------------
  // stat and lstat are consulted only for `stats`

  /** Without the `stats` option the walk never looks at stat or lstat: a
      filesystem that answers those differently gives the same trace. So
      a symbolic link to a directory, whose listing entry is not a
      directory, is never descended into. */
  lemma {:induction false} NoStatWithoutStats(h: Host, o: Options, dir: string, fuel: nat, st: Path -> StatResult, lst: Path -> StatResult)
    requires !o.stats
    ensures WalkDir(h.(fs := h.fs.(stat := st, lstat := lst)), o, dir, fuel) == WalkDir(h, o, dir, fuel)
    decreases fuel, 3, 0
  {
    if !IsExcluded(h, dir, o.excludes, Some(o.minimatch)) {
      NoStatListing(h, o, dir, fuel, st, lst);
    }
  }

  lemma {:induction false} NoStatListing(h: Host, o: Options, dir: string, fuel: nat, st: Path -> StatResult, lst: Path -> StatResult)
    requires !o.stats
    ensures ListDir(h.(fs := h.fs.(stat := st, lstat := lst)), o, dir, fuel) == ListDir(h, o, dir, fuel)
    decreases fuel, 2, 0
  {
    match h.fs.readdir(Text(dir))
    case ListFailed(_) =>
    case Listed(ds) => NoStatChildren(h, o, dir, ds, fuel, st, lst);
  }

  lemma {:induction false} NoStatChildren(h: Host, o: Options, dir: string, ds: seq<Dirent>, fuel: nat, st: Path -> StatResult, lst: Path -> StatResult)
    requires !o.stats
    ensures WalkChildren(h.(fs := h.fs.(stat := st, lstat := lst)), o, dir, ds, fuel) == WalkChildren(h, o, dir, ds, fuel)
    decreases fuel, 1, |ds|
  {
    if ds != [] {
      NoStatChildren(h, o, dir, ds[..|ds| - 1], fuel, st, lst);
      var d := ds[|ds| - 1];
      var path := h.join(dir, h.decode(d.name));
      if d.isDir && fuel > 0 {
        NoStatWithoutStats(h, o, path, fuel - 1, st, lst);
      }
    }
  }

  // ---------------------------------------------------------------------
  // The depth bound

  /** A call that finished (or threw) within the depth bound gives the same
      trace under any larger bound. */
  lemma {:induction false} WalkDirFuel(h: Host, o: Options, dir: string, fuel: nat, more: nat)
    requires fuel <= more
    requires WalkDir(h, o, dir, fuel).stop != OutOfFuel
    ensures WalkDir(h, o, dir, more) == WalkDir(h, o, dir, fuel)
    decreases fuel, 3, 0
  {
    if !IsExcluded(h, dir, o.excludes, Some(o.minimatch)) {
      ListDirFuel(h, o, dir, fuel, more);
    }
  }

  lemma {:induction false} ListDirFuel(h: Host, o: Options, dir: string, fuel: nat, more: nat)
    requires fuel <= more
    requires ListDir(h, o, dir, fuel).stop != OutOfFuel
    ensures ListDir(h, o, dir, more) == ListDir(h, o, dir, fuel)
    decreases fuel, 2, 0
  {
    match h.fs.readdir(Text(dir))
    case ListFailed(_) =>
    case Listed(ds) => WalkChildrenFuel(h, o, dir, ds, fuel, more);
  }

  lemma {:induction false} WalkChildrenFuel(h: Host, o: Options, dir: string, ds: seq<Dirent>, fuel: nat, more: nat)
    requires fuel <= more
    requires WalkChildren(h, o, dir, ds, fuel).stop != OutOfFuel
    ensures WalkChildren(h, o, dir, ds, more) == WalkChildren(h, o, dir, ds, fuel)
    decreases fuel, 1, |ds|
  {
    if ds != [] {
      var init := ds[..|ds| - 1];
      WalkChildrenFuel(h, o, dir, init, fuel, more);
      if WalkChildren(h, o, dir, init, fuel).stop == Finished {
        ChildFuel(h, o, dir, ds[|ds| - 1], fuel, more);
      }
    }
  }

  lemma {:induction false} ChildFuel(h: Host, o: Options, dir: string, d: Dirent, fuel: nat, more: nat)
    requires fuel <= more
    requires Child(h, o, dir, d, fuel).stop != OutOfFuel
    ensures Child(h, o, dir, d, more) == Child(h, o, dir, d, fuel)
    decreases fuel, 0, 0
  {
    var path := h.join(dir, h.decode(d.name));
    if fuel > 0 && WalkDir(h, o, path, fuel - 1).stop != OutOfFuel {
      WalkDirFuel(h, o, path, fuel - 1, more - 1);
    }
  }

  /** A top-level call that ends within the depth bound is the same under
      any larger bound: the bound only cuts off walks the source carries on
      with. */
  lemma WalkFuel(h: Host, dir: string, user: UserOptions, fuel: nat, more: nat)
    requires fuel <= more
    requires Walk(h, dir, user, fuel).stop != OutOfFuel
    ensures Walk(h, dir, user, more) == Walk(h, dir, user, fuel)
  {
    if !IsExcluded(h, dir, user.excludes, user.minimatch) {
      ListDirFuel(h, WithDefaults(user), dir, fuel, more);
    }
  }
}
