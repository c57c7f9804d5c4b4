/** `rrdir.sync` and `rrdir.stream` of index.js as imperative code: a
    `results` array filled (or entries yielded) in a loop over the listing,
    with the recursive call's output spliced in. Both are proved to follow
    what Legacy.Walk describes. */
module LegacyFrontEnd {
  import opened FsModel
  import opened Legacy
  import opened LegacyProofs

  /** A recursive call `rrdir.sync(path, opts)`, with options already
      merged. A branch deeper than `fuel` ends in `Unbounded`, where the
      source recurses on. */
  method WalkDirSync(h: Host, o: Options, dir: string, fuel: nat) returns (r: SyncResult)
    ensures r == Collect(WalkDir(h, o, dir, fuel))
    decreases fuel, 2
  {
    if IsExcluded(h, dir, o.excludes, Some(o.minimatch)) {
      return Returned([]);
    }
    r := ListDirSync(h, o, dir, fuel);
  }

  /** The body of `rrdir.sync` after the merge: list, then loop over the
      entries, splicing in what each one gives. */
  method ListDirSync(h: Host, o: Options, dir: string, fuel: nat) returns (r: SyncResult)
    ensures r == Collect(ListDir(h, o, dir, fuel))
    decreases fuel, 1
  {
    var results: seq<Entry> := [];
    var entries: seq<Dirent> := [];
    var listing := h.fs.readdir(Text(dir));
    if listing.ListFailed? {
      if o.strict {
        return Threw(listing.err);
      }
      results := results + [Err(Text(dir), listing.err)];
    } else {
      entries := listing.dirents;
    }
    if |entries| == 0 {
      return Returned(results);
    }

    for i := 0 to |entries|
      invariant WalkChildren(h, o, dir, entries[..i], fuel) == Done(results)
    {
      assert entries[..i + 1][..i] == entries[..i];
      var child := ChildSync(h, o, dir, entries[i], fuel);
      if !child.Returned? {
        ChildrenStopEarly(h, o, dir, entries, i + 1, fuel);
        return child;
      }
      results := results + child.entries;
    }
    assert entries[..|entries|] == entries;
    return Returned(results);
  }

  /** The loop body for one listed entry. */
  method ChildSync(h: Host, o: Options, dir: string, entry: Dirent, fuel: nat) returns (r: SyncResult)
    ensures r == Collect(Child(h, o, dir, entry, fuel))
    decreases fuel, 0
  {
    var name := h.decode(entry.name);
    var path := h.join(dir, name);
    if IsExcluded(h, path, o.excludes, Some(o.minimatch)) {
      return Returned([]);
    }
    if !IsIncluded(h, entry, name, o) {
      return Returned([]);
    }

    var results: seq<Entry> := [];
    if o.stats {
      var stats: Option<StatInfo> := None;
      var res := if o.followSymlinks then h.fs.stat(Text(path)) else h.fs.lstat(Text(path));
      if res.StatFailed? {
        if o.strict {
          return Threw(res.err);
        }
        results := results + [Err(Text(path), res.err)];
      } else {
        stats := Some(res.info);
      }
      if stats.Some? && CanInclude(entry, o.includes) {
        results := results + [Build(entry, path, stats)];
      }
    } else {
      if CanInclude(entry, o.includes) {
        results := results + [Build(entry, path, None)];
      }
    }
    assert results == OwnEntries(h, o, entry, path);
    ChildRecursion(h, o, dir, entry, fuel);

    if entry.isDir {
      if fuel == 0 {
        return Unbounded;
      }
      var sub := WalkDirSync(h, o, path, fuel - 1);
      if !sub.Returned? {
        return sub;
      }
      results := results + sub.entries;
    }
    return Returned(results);
  }

  /** `rrdir.sync(dir, opts)`: the exclude check on the caller's own
      options, then the defaults merged in. */
  method Sync(h: Host, dir: string, user: UserOptions, fuel: nat) returns (r: SyncResult)
    ensures r == Collect(Walk(h, dir, user, fuel))
  {
    if IsExcluded(h, dir, user.excludes, user.minimatch) {
      return Returned([]);
    }
    var opts := WithDefaults(user);
    r := ListDirSync(h, opts, dir, fuel);
  }

  /** A recursive call of the `rrdir.stream(path, opts)` generator, with
      options already merged: `yielded` is what the consumer has received
      when it returns or throws. */
  method WalkDirStream(h: Host, o: Options, dir: string, fuel: nat) returns (yielded: seq<Entry>, stop: Stop)
    ensures Trace(yielded, stop) == WalkDir(h, o, dir, fuel)
    decreases fuel, 2
  {
    if IsExcluded(h, dir, o.excludes, Some(o.minimatch)) {
      return [], Finished;
    }
    yielded, stop := ListDirStream(h, o, dir, fuel);
  }

  /** The generator's body after the merge. */
  method ListDirStream(h: Host, o: Options, dir: string, fuel: nat) returns (yielded: seq<Entry>, stop: Stop)
    ensures Trace(yielded, stop) == ListDir(h, o, dir, fuel)
    decreases fuel, 1
  {
    yielded := [];
    var entries: seq<Dirent> := [];
    var listing := h.fs.readdir(Text(dir));
    if listing.ListFailed? {
      if o.strict {
        return [], Raised(listing.err);
      }
      yielded := yielded + [Err(Text(dir), listing.err)];
    } else {
      entries := listing.dirents;
    }
    if |entries| == 0 {
      return yielded, Finished;
    }

    for i := 0 to |entries|
      invariant WalkChildren(h, o, dir, entries[..i], fuel) == Done(yielded)
    {
      assert entries[..i + 1][..i] == entries[..i];
      var childOut, childStop := ChildStream(h, o, dir, entries[i], fuel);
      yielded := yielded + childOut;
      if childStop != Finished {
        ChildrenStopEarly(h, o, dir, entries, i + 1, fuel);
        return yielded, childStop;
      }
    }
    assert entries[..|entries|] == entries;
    return yielded, Finished;
  }

  /** The generator's loop body for one listed entry. */
  method ChildStream(h: Host, o: Options, dir: string, entry: Dirent, fuel: nat) returns (yielded: seq<Entry>, stop: Stop)
    ensures Trace(yielded, stop) == Child(h, o, dir, entry, fuel)
    decreases fuel, 0
  {
    yielded := [];
    var name := h.decode(entry.name);
    var path := h.join(dir, name);
    if IsExcluded(h, path, o.excludes, Some(o.minimatch)) || !IsIncluded(h, entry, name, o) {
      return yielded, Finished;
    }

    if o.stats {
      var stats: Option<StatInfo> := None;
      var res := if o.followSymlinks then h.fs.stat(Text(path)) else h.fs.lstat(Text(path));
      if res.StatFailed? {
        if o.strict {
          return yielded, Raised(res.err);
        }
        yielded := yielded + [Err(Text(path), res.err)];
      } else {
        stats := Some(res.info);
      }
      if stats.Some? && CanInclude(entry, o.includes) {
        yielded := yielded + [Build(entry, path, stats)];
      }
    } else if CanInclude(entry, o.includes) {
      yielded := yielded + [Build(entry, path, None)];
    }
    assert yielded == OwnEntries(h, o, entry, path);
    ChildRecursion(h, o, dir, entry, fuel);

    stop := Finished;
    if entry.isDir {
      if fuel == 0 {
        return yielded, OutOfFuel;
      }
      // yield* over the generator for the subdirectory
      var subOut, subStop := WalkDirStream(h, o, path, fuel - 1);
      yielded := yielded + subOut;
      stop := subStop;
    }
  }

  /** `rrdir.stream(dir, opts)` drained by its consumer. */
  method Stream(h: Host, dir: string, user: UserOptions, fuel: nat) returns (yielded: seq<Entry>, stop: Stop)
    ensures Trace(yielded, stop) == Walk(h, dir, user, fuel)
  {
    if IsExcluded(h, dir, user.excludes, user.minimatch) {
      return [], Finished;
    }
    var opts := WithDefaults(user);
    yielded, stop := ListDirStream(h, opts, dir, fuel);
  }
}
