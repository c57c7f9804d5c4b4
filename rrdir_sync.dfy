/** The two sequential front-ends of index.ts as imperative code: the
    blocking `rrdirSync`, which fills a `results` array in a loop over the
    listing, and the lazy `rrdir` generator, which yields the same entries
    one at a time. Each is proved to produce exactly the trace of
    Rrdir.Walk. */
module RrdirFrontEnds {
  import opened FsModel
  import opened Rrdir
  import opened RrdirProofs

  /** One level of `rrdirSync`: the entries of `dir` and below, or the
      error the first strict failure throws. When a branch is deeper than
      `fuel` the model stops with `Unbounded`, where the source recurses on. */
  method WalkDirSync(h: Host, c: Ctx, dir: Path, fuel: nat) returns (r: SyncResult)
    requires GetEncoding(dir) == c.encoding
    ensures r == Collect(WalkDir(h, c, dir, fuel))
    decreases fuel, 1
  {
    var results: seq<Entry> := [];
    var dirents: seq<Dirent> := [];
    var listing := h.fs.readdir(dir);
    if listing.ListFailed? {
      if c.opts.strict {
        return Threw(listing.err);
      }
      results := results + [Err(dir, listing.err)];
    } else {
      dirents := listing.dirents;
    }
    if |dirents| == 0 {
      return Returned(results);
    }

    for i := 0 to |dirents|
      invariant WalkChildren(h, c, dir, dirents[..i], fuel) == Done(results)
    {
      assert dirents[..i + 1][..i] == dirents[..i];
      var child := ChildSync(h, c, dir, dirents[i], fuel);
      if !child.Returned? {
        ChildrenStopEarly(h, c, dir, dirents, i + 1, fuel);
        return child;
      }
      results := results + child.entries;
    }
    assert dirents[..|dirents|] == dirents;
    return Returned(results);
  }

  /** The body of the loop over the listing for one child: what it pushes
      onto `results`, or what it throws. */
  method ChildSync(h: Host, c: Ctx, dir: Path, dirent: Dirent, fuel: nat) returns (r: SyncResult)
    requires GetEncoding(dir) == c.encoding
    ensures r == Collect(Child(h, c, dir, dirent, fuel))
    decreases fuel, 0
  {
    var results: seq<Entry> := [];
    var path := MakePath(dirent, dir, c.encoding, h.decode);
    var text := MatchText(path, h.decode);
    if Excluded(c.matchers, text) {
      return Returned(results);
    }

    var isSymbolicLink := c.opts.followSymlinks && dirent.isLink;
    var isIncluded := Included(c.matchers, text);
    var stats: Option<StatInfo> := None;
    if isIncluded {
      if c.opts.stats || isSymbolicLink {
        var res := if c.opts.followSymlinks then h.fs.stat(path) else h.fs.lstat(path);
        if res.StatFailed? {
          if c.opts.strict {
            ThrowingChild(h, c, dir, dirent, fuel);
            return Threw(res.err);
          }
          results := results + [Err(path, res.err)];
        } else {
          stats := Some(res.info);
        }
      }
      results := results + [Build(dirent, path, stats, c.opts)];
    }
    assert results == OwnEntries(h, c, dirent, path);
    ChildThenSubtree(h, c, dir, dirent, fuel);

    var recurse := false;
    if isSymbolicLink {
      if stats.None? {
        // a failure of this second stat is swallowed
        var res := h.fs.stat(path);
        if res.StatOk? {
          stats := Some(res.info);
        }
      }
      if stats.Some? && stats.value.isDir {
        recurse := true;
      }
    } else if dirent.isDir {
      recurse := true;
    }
    assert recurse == WillRecurse(h.fs, c.opts, dirent, path);

    if recurse {
      if fuel == 0 {
        return Unbounded;
      }
      var sub := WalkDirSync(h, c, path, fuel - 1);
      if !sub.Returned? {
        return sub;
      }
      results := results + sub.entries;
    }
    return Returned(results);
  }

  /** `rrdirSync(dir, opts)`: normalise once, then walk. */
  method RrdirSync(h: Host, root: Path, user: UserOptions, fuel: nat) returns (r: SyncResult)
    ensures r == Collect(Walk(h, root, user, fuel))
  {
    var opts := WithDefaults(user);
    var matchers := MakeMatchers(opts, h.glob);
    var dir := root;
    if dir.Text? && EndsWithSep(dir.s) {
      dir := Text(dir.s[..|dir.s| - 1]);
    }
    var encoding := GetEncoding(dir);
    r := WalkDirSync(h, Ctx(opts, matchers, encoding), dir, fuel);
  }

  /** One level of the lazy `rrdir` generator: `yielded` is what the
      consumer has received when the generator returns (`Finished`) or
      throws (`Raised`). */
  method WalkDirLazy(h: Host, c: Ctx, dir: Path, fuel: nat) returns (yielded: seq<Entry>, stop: Stop)
    requires GetEncoding(dir) == c.encoding
    ensures Trace(yielded, stop) == WalkDir(h, c, dir, fuel)
    decreases fuel, 1
  {
    yielded := [];
    var dirents: seq<Dirent> := [];
    var listing := h.fs.readdir(dir);
    if listing.ListFailed? {
      if c.opts.strict {
        return [], Raised(listing.err);
      }
      yielded := yielded + [Err(dir, listing.err)];
    } else {
      dirents := listing.dirents;
    }
    if |dirents| == 0 {
      return yielded, Finished;
    }

    for i := 0 to |dirents|
      invariant WalkChildren(h, c, dir, dirents[..i], fuel) == Done(yielded)
    {
      assert dirents[..i + 1][..i] == dirents[..i];
      var childOut, childStop := ChildLazy(h, c, dir, dirents[i], fuel);
      yielded := yielded + childOut;
      if childStop != Finished {
        ChildrenStopEarly(h, c, dir, dirents, i + 1, fuel);
        return yielded, childStop;
      }
    }
    assert dirents[..|dirents|] == dirents;
    return yielded, Finished;
  }

  /** The body of the generator's loop for one child: what it yields, and
      whether it throws (or reaches the depth bound) afterwards. */
  method ChildLazy(h: Host, c: Ctx, dir: Path, dirent: Dirent, fuel: nat) returns (yielded: seq<Entry>, stop: Stop)
    requires GetEncoding(dir) == c.encoding
    ensures Trace(yielded, stop) == Child(h, c, dir, dirent, fuel)
    decreases fuel, 0
  {
    yielded := [];
    var path := MakePath(dirent, dir, c.encoding, h.decode);
    var text := MatchText(path, h.decode);
    if Excluded(c.matchers, text) {
      return yielded, Finished;
    }

    var isSymbolicLink := c.opts.followSymlinks && dirent.isLink;
    var isIncluded := Included(c.matchers, text);
    var stats: Option<StatInfo> := None;
    if isIncluded {
      if c.opts.stats || isSymbolicLink {
        var res := if c.opts.followSymlinks then h.fs.stat(path) else h.fs.lstat(path);
        if res.StatFailed? {
          if c.opts.strict {
            ThrowingChild(h, c, dir, dirent, fuel);
            return yielded, Raised(res.err);
          }
          yielded := yielded + [Err(path, res.err)];
        } else {
          stats := Some(res.info);
        }
      }
      yielded := yielded + [Build(dirent, path, stats, c.opts)];
    }
    assert yielded == OwnEntries(h, c, dirent, path);
    ChildThenSubtree(h, c, dir, dirent, fuel);

    var recurse := false;
    if isSymbolicLink {
      if stats.None? {
        var res := h.fs.stat(path);
        if res.StatOk? {
          stats := Some(res.info);
        }
      }
      if stats.Some? && stats.value.isDir {
        recurse := true;
      }
    } else if dirent.isDir {
      recurse := true;
    }
    assert recurse == WillRecurse(h.fs, c.opts, dirent, path);

    if recurse {
      if fuel == 0 {
        return yielded, OutOfFuel;
      }
      // yield* over the generator for the subdirectory
      var subOut, subStop := WalkDirLazy(h, c, path, fuel - 1);
      yielded := yielded + subOut;
      stop := subStop;
    } else {
      stop := Finished;
    }
  }

  /** `rrdir(dir, opts)` drained by its consumer. */
  method RrdirLazy(h: Host, root: Path, user: UserOptions, fuel: nat) returns (yielded: seq<Entry>, stop: Stop)
    ensures Trace(yielded, stop) == Walk(h, root, user, fuel)
  {
    var opts := WithDefaults(user);
    var matchers := MakeMatchers(opts, h.glob);
    var dir := root;
    if dir.Text? && EndsWithSep(dir.s) {
      dir := Text(dir.s[..|dir.s| - 1]);
    }
    var encoding := GetEncoding(dir);
    yielded, stop := WalkDirLazy(h, Ctx(opts, matchers, encoding), dir, fuel);
  }
}
