/** What the walker of index.ts guarantees: how each child is handled,
    what every produced entry satisfies, error shaping, the trailing
    separator, and the depth bound. */
module RrdirProofs {
  import opened FsModel
  import opened Rrdir

  /** `p` lies strictly below `dir`: it starts with `dir` and a separator
      (every text path counts as below the text parent "."), in the same
      representation as `dir`. */
  predicate StrictlyUnder(p: Path, dir: Path) {
    match dir
    case Text(s) =>
      p.Text? && (s == "." || (|p.s| > |s| && p.s[..|s| + 1] == s + [Sep]))
    case Bytes(b) =>
      p.Bytes? && |p.b| > |b| && p.b[..|b| + 1] == b + SepBytes
  }

  predicate AtOrUnder(p: Path, dir: Path) {
    p == dir || StrictlyUnder(p, dir)
  }

  /** Whether a child that survived the exclude check is descended into:
      a followed symbolic link when its target is a directory, anything
      else when the listing calls it a directory. The include matcher
      plays no part. */
  predicate WillRecurse(fs: Fs, opts: Options, d: Dirent, path: Path) {
    if opts.followSymlinks && d.isLink
    then var t := FallbackStat(fs, path); t.Some? && t.value.isDir
    else d.isDir
  }

  /** What the walk below a child contributes after the child's own entries. */
  function Subtree(h: Host, c: Ctx, d: Dirent, path: Path, fuel: nat): Trace
    requires GetEncoding(path) == c.encoding
  {
    if !WillRecurse(h.fs, c.opts, d, path) then Done([])
    else if fuel == 0 then Trace([], OutOfFuel)
    else WalkDir(h, c, path, fuel - 1)
  }

  /** The stat of an included child fails in strict mode: the call throws. */
  predicate ProbeThrows(h: Host, c: Ctx, d: Dirent, path: Path) {
    var probe := Probe(h, c, d, path, Included(c.matchers, MatchText(path, h.decode)));
    c.opts.strict && probe.Some? && probe.value.StatFailed?
  }

  // ---------------------------------------------------------------------
  // One child

  /** An excluded child yields nothing and ends nothing; what the filesystem
      says about it or below it does not matter, so it is neither stat-ed
      nor listed. */
  lemma ExcludedChildSkipped(h: Host, c: Ctx, dir: Path, d: Dirent, fuel: nat, other: Fs)
    requires GetEncoding(dir) == c.encoding
    requires Excluded(c.matchers, MatchText(MakePath(d, dir, c.encoding, h.decode), h.decode))
    ensures Child(h, c, dir, d, fuel) == Done([])
    ensures Child(h.(fs := other), c, dir, d, fuel) == Done([])
  {
  }

  /** A child that is not excluded and does not throw yields its own
      entries and then exactly what the walk below it gives; whether that
      walk happens is WillRecurse, which ignores inclusion, so a child that
      is not included still contributes its whole subtree. */
  lemma ChildThenSubtree(h: Host, c: Ctx, dir: Path, d: Dirent, fuel: nat)
    requires GetEncoding(dir) == c.encoding
    requires !Excluded(c.matchers, MatchText(MakePath(d, dir, c.encoding, h.decode), h.decode))
    requires !ProbeThrows(h, c, d, MakePath(d, dir, c.encoding, h.decode))
    ensures
      var path := MakePath(d, dir, c.encoding, h.decode);
      Child(h, c, dir, d, fuel) == Prepend(OwnEntries(h, c, d, path), Subtree(h, c, d, path, fuel))
  {
    var path := MakePath(d, dir, c.encoding, h.decode);
    var probe := Probe(h, c, d, path, Included(c.matchers, MatchText(path, h.decode)));
    if c.opts.followSymlinks && d.isLink && probe.Some? && probe.value.StatOk? {
      // the stat made for the entry is the one the fallback would repeat
      assert probe.value == h.fs.stat(path);
    }
  }

  /** An included child yields at least its own entry; one that is not
      included yields nothing for its own path. */
  lemma OwnEntriesIffIncluded(h: Host, c: Ctx, d: Dirent, path: Path)
    ensures var own := OwnEntries(h, c, d, path);
      (own != [] <==> Included(c.matchers, MatchText(path, h.decode))) &&
      (own != [] ==> own[|own| - 1].Ok?)
  {
  }

  /** An included child whose stat succeeds, or who needs no stat, yields
      exactly one record: its type comes from the stat result when there is
      one and from the listing otherwise, and the `stats` key, when the
      option is on, holds that stat result. */
  lemma StatSuccessRecord(h: Host, c: Ctx, d: Dirent, path: Path)
    requires Included(c.matchers, MatchText(path, h.decode))
    requires var p := Probe(h, c, d, path, true); p.None? || p.value.StatOk?
    ensures
      var p := Probe(h, c, d, path, true);
      var stats := if p.Some? then Some(p.value.info) else None;
      && OwnEntries(h, c, d, path) == [Build(d, path, stats, c.opts)]
      && OwnEntries(h, c, d, path) ==
           [Ok(path,
               if p.Some? then p.value.info.isDir else d.isDir,
               if p.Some? then p.value.info.isLink else d.isLink,
               if c.opts.stats then StatsKey(stats) else NoStatsKey)]
  {
  }

  /** A followed symbolic link whose target can be stat-ed is reported
      with the target's type, not the link's listing flags. */
  lemma FollowedLinkRecord(h: Host, c: Ctx, d: Dirent, path: Path)
    requires c.opts.followSymlinks && d.isLink
    requires Included(c.matchers, MatchText(path, h.decode))
    requires h.fs.stat(path).StatOk?
    ensures
      var info := h.fs.stat(path).info;
      OwnEntries(h, c, d, path) ==
        [Ok(path, info.isDir, info.isLink, if c.opts.stats then StatsKey(Some(info)) else NoStatsKey)]
  {
    StatSuccessRecord(h, c, d, path);
  }

  /** In non-strict mode, a stat that fails for an included child gives an
      error entry and then the listing-based entry for the same path, in
      that order. */
  lemma StatFailureKeepsEntry(h: Host, c: Ctx, dir: Path, d: Dirent, fuel: nat)
    requires GetEncoding(dir) == c.encoding
    requires !c.opts.strict
    requires
      var path := MakePath(d, dir, c.encoding, h.decode);
      var text := MatchText(path, h.decode);
      var probe := Probe(h, c, d, path, Included(c.matchers, text));
      !Excluded(c.matchers, text) && probe.Some? && probe.value.StatFailed?
    ensures
      var path := MakePath(d, dir, c.encoding, h.decode);
      var t := Child(h, c, dir, d, fuel);
      var e := Probe(h, c, d, path, true).value.err;
      |t.out| >= 2 && t.out[0] == Err(path, e) &&
      t.out[1] == Ok(path, d.isDir, d.isLink, if c.opts.stats then StatsKey(None) else NoStatsKey)
  {
  }

  /** A followed symbolic link whose target cannot be stat-ed ends its
      child normally: the silent fallback stat raises nothing, even in
      strict mode when the link is not included, and the link is not
      descended into. */
  lemma BrokenLinkNotDescended(h: Host, c: Ctx, dir: Path, d: Dirent, fuel: nat)
    requires GetEncoding(dir) == c.encoding
    requires c.opts.followSymlinks && d.isLink
    requires
      var path := MakePath(d, dir, c.encoding, h.decode);
      && !Excluded(c.matchers, MatchText(path, h.decode))
      && !ProbeThrows(h, c, d, path)
      && h.fs.stat(path).StatFailed?
    ensures
      var path := MakePath(d, dir, c.encoding, h.decode);
      Child(h, c, dir, d, fuel) == Done(OwnEntries(h, c, d, path))
  {
    ChildThenSubtree(h, c, dir, d, fuel);
  }

  // ---------------------------------------------------------------------
  // Every entry of a walk

  /** What holds of each entry a child of `dir` produces. */
  predicate ChildEntry(c: Ctx, decode: seq<uint8> -> string, dir: Path, e: Entry) {
    && StrictlyUnder(e.path, dir)
    && !Excluded(c.matchers, MatchText(e.path, decode))
    && (e.Ok? ==> (e.stats.StatsKey? <==> c.opts.stats))
    && (e.Err? ==> !c.opts.strict)
  }

  /** What holds of each entry the walk of `dir` produces: it is the
      non-strict error entry for `dir` itself, or it comes from one of the
      children. */
  predicate DirEntry(c: Ctx, decode: seq<uint8> -> string, dir: Path, e: Entry) {
    (e.Err? && e.path == dir && !c.opts.strict) || ChildEntry(c, decode, dir, e)
  }

  lemma ChildIsUnder(d: Dirent, dir: Path, enc: Encoding, decode: seq<uint8> -> string)
    requires GetEncoding(dir) == enc
    ensures StrictlyUnder(MakePath(d, dir, enc, decode), dir)
  {
    var p := MakePath(d, dir, enc, decode);
    match dir
    case Text(s) =>
      if s != "." {
        assert p.s[..|s| + 1] == p.s[..|s|] + [p.s[|s|]];
      }
    case Bytes(b) =>
      assert p.b[..|b| + 1] == p.b[..|b|] + p.b[|b|..|b| + 1];
  }

  lemma UnderChildIsUnderParent(p: Path, d: Dirent, dir: Path, enc: Encoding, decode: seq<uint8> -> string)
    requires GetEncoding(dir) == enc
    requires AtOrUnder(p, MakePath(d, dir, enc, decode))
    ensures StrictlyUnder(p, dir)
  {
    var child := MakePath(d, dir, enc, decode);
    ChildIsUnder(d, dir, enc, decode);
    if p != child {
      match dir
      case Text(s) =>
        if s != "." {
          var cs := child.s;
          assert |cs| > |s| && cs[..|s| + 1] == s + [Sep];
          assert cs != ".";
          assert p.s[..|cs| + 1] == cs + [Sep];
          assert p.s[..|s| + 1] == p.s[..|cs| + 1][..|s| + 1];
        }
      case Bytes(b) =>
        var cb := child.b;
        assert p.b[..|cb| + 1] == cb + SepBytes;
        assert p.b[..|b| + 1] == p.b[..|cb| + 1][..|b| + 1];
    }
  }

  lemma {:induction false} WalkDirEntries(h: Host, c: Ctx, dir: Path, fuel: nat)
    requires GetEncoding(dir) == c.encoding
    ensures forall e | e in WalkDir(h, c, dir, fuel).out :: DirEntry(c, h.decode, dir, e)
    decreases fuel, 2, 0
  {
    match h.fs.readdir(dir)
    case ListFailed(_) =>
    case Listed(ds) => WalkChildrenEntries(h, c, dir, ds, fuel);
  }

  lemma {:induction false} WalkChildrenEntries(h: Host, c: Ctx, dir: Path, ds: seq<Dirent>, fuel: nat)
    requires GetEncoding(dir) == c.encoding
    ensures forall e | e in WalkChildren(h, c, dir, ds, fuel).out :: ChildEntry(c, h.decode, dir, e)
    decreases fuel, 1, |ds|
  {
    if ds != [] {
      WalkChildrenEntries(h, c, dir, ds[..|ds| - 1], fuel);
      ChildEntries(h, c, dir, ds[|ds| - 1], fuel);
    }
  }

  /** A stat failure in strict mode ends the walk before the child yields anything. */
  lemma ThrowingChild(h: Host, c: Ctx, dir: Path, d: Dirent, fuel: nat)
    requires GetEncoding(dir) == c.encoding
    requires !Excluded(c.matchers, MatchText(MakePath(d, dir, c.encoding, h.decode), h.decode))
    requires ProbeThrows(h, c, d, MakePath(d, dir, c.encoding, h.decode))
    ensures
      var path := MakePath(d, dir, c.encoding, h.decode);
      var probe := Probe(h, c, d, path, Included(c.matchers, MatchText(path, h.decode)));
      Child(h, c, dir, d, fuel) == Trace([], Raised(probe.value.err))
  {
  }

  lemma {:induction false} ChildEntries(h: Host, c: Ctx, dir: Path, d: Dirent, fuel: nat)
    requires GetEncoding(dir) == c.encoding
    ensures forall e | e in Child(h, c, dir, d, fuel).out :: ChildEntry(c, h.decode, dir, e)
    decreases fuel, 0, 0
  {
    var path := MakePath(d, dir, c.encoding, h.decode);
    var t := Child(h, c, dir, d, fuel);
    if Excluded(c.matchers, MatchText(path, h.decode)) {
      ExcludedChildSkipped(h, c, dir, d, fuel, h.fs);
    } else if ProbeThrows(h, c, d, path) {
      ThrowingChild(h, c, dir, d, fuel);
    } else {
      ChildThenSubtree(h, c, dir, d, fuel);
      var own := OwnEntries(h, c, d, path);
      var sub := Subtree(h, c, d, path, fuel);
      if WillRecurse(h.fs, c.opts, d, path) && fuel > 0 {
        WalkDirEntries(h, c, path, fuel - 1);
      }
      ChildIsUnder(d, dir, c.encoding, h.decode);
      forall e | e in own + sub.out ensures ChildEntry(c, h.decode, dir, e) {
        if e in own {
          assert e.path == path;
        } else {
          assert DirEntry(c, h.decode, path, e);
          UnderChildIsUnderParent(e.path, d, dir, c.encoding, h.decode);
        }
      }
    }
  }

  // ---------------------------------------------------------------------
  // Top-level guarantees

  /** Every entry lies at or below the (trimmed) root, in the root's
      representation: a byte root gives byte paths only, a text root text
      paths only; and the only entry for the root itself is its listing
      error. */
  lemma EntriesBelowRoot(h: Host, root: Path, user: UserOptions, fuel: nat)
    ensures
      var dir := StripTrailingSep(root);
      forall e | e in Walk(h, root, user, fuel).out ::
        && e.path.Bytes? == root.Bytes?
        && (StrictlyUnder(e.path, dir) || (e.Err? && e.path == dir))
  {
    var dir := StripTrailingSep(root);
    WalkDirEntries(h, TopCtx(h, dir, user), dir, fuel);
  }

  /** No entry is for a path the exclude patterns match, except the root's
      own listing error. */
  lemma ExcludedNeverEmitted(h: Host, root: Path, user: UserOptions, fuel: nat)
    ensures
      var dir := StripTrailingSep(root);
      forall e | e in Walk(h, root, user, fuel).out && e.path != dir ::
        !(HasPatterns(user.excludes) &&
          h.glob(user.excludes.value, user.insensitive == Some(true), MatchText(e.path, h.decode)))
  {
    var dir := StripTrailingSep(root);
    var c := TopCtx(h, dir, user);
    WalkDirEntries(h, c, dir, fuel);
  }

  /** In strict mode every failure throws, so no error entry is ever
      produced: whatever the walk gives before it ends is real. */
  lemma StrictRecordsOk(h: Host, root: Path, user: UserOptions, fuel: nat)
    requires user.strict == Some(true)
    ensures forall e | e in Walk(h, root, user, fuel).out :: e.Ok?
  {
    var dir := StripTrailingSep(root);
    WalkDirEntries(h, TopCtx(h, dir, user), dir, fuel);
  }

  /** An entry carries a `stats` key exactly when the `stats` option is on;
      with it off (the default) no entry has the key at all. */
  lemma StatsKeyIffOption(h: Host, root: Path, user: UserOptions, fuel: nat)
    ensures forall e | e in Walk(h, root, user, fuel).out && e.Ok? ::
      e.stats.StatsKey? <==> user.stats == Some(true)
  {
    var dir := StripTrailingSep(root);
    WalkDirEntries(h, TopCtx(h, dir, user), dir, fuel);
  }

  /** A root that cannot be listed: strict mode throws before anything is
      produced; otherwise the result is exactly one error entry for the
      (trimmed) root. */
  lemma UnreadableRoot(h: Host, root: Path, user: UserOptions, fuel: nat)
    requires h.fs.readdir(StripTrailingSep(root)).ListFailed?
    ensures
      var dir := StripTrailingSep(root);
      var e := h.fs.readdir(dir).err;
      var t := Walk(h, root, user, fuel);
      && (user.strict == Some(true) ==> t == Trace([], Raised(e)) && Collect(t) == Threw(e))
      && (user.strict != Some(true) ==> t == Done([Err(dir, e)]) && Collect(t) == Returned([Err(dir, e)]))
  {
  }

  /** When the exclude patterns match every path (`exclude: ["**"]`), no
      child produces anything: a readable root gives an empty result. */
  lemma {:induction false} ExcludeAllChildren(h: Host, c: Ctx, dir: Path, ds: seq<Dirent>, fuel: nat)
    requires GetEncoding(dir) == c.encoding
    requires forall p :: Excluded(c.matchers, p)
    ensures WalkChildren(h, c, dir, ds, fuel) == Done([])
    decreases |ds|
  {
    if ds != [] {
      ExcludeAllChildren(h, c, dir, ds[..|ds| - 1], fuel);
    }
  }

  // `glob` applied through a named function, so that the quantifier in
  // MatchesEverything has a term to trigger on.
  function GlobMatch(glob: Glob, patterns: seq<string>, insensitive: bool, p: string): bool {
    glob(patterns, insensitive, p)
  }

  ghost predicate MatchesEverything(glob: Glob, patterns: seq<string>, insensitive: bool) {
    forall p :: GlobMatch(glob, patterns, insensitive, p)
  }

  lemma ExcludeEverything(h: Host, root: Path, user: UserOptions, fuel: nat)
    requires HasPatterns(user.excludes)
    requires MatchesEverything(h.glob, user.excludes.value, user.insensitive == Some(true))
    requires h.fs.readdir(StripTrailingSep(root)).Listed?
    ensures Walk(h, root, user, fuel) == Done([])
  {
    var dir := StripTrailingSep(root);
    var c := TopCtx(h, dir, user);
    forall p ensures Excluded(c.matchers, p) {
      assert GlobMatch(h.glob, user.excludes.value, user.insensitive == Some(true), p);
    }
    ExcludeAllChildren(h, c, dir, h.fs.readdir(dir).dirents, fuel);
  }

  /** `"dir/"` and `"dir\\"` walk exactly like `"dir"`; only one separator
      is removed, so this needs `"dir"` not to end in one already. */
  lemma TrailingSeparatorIgnored(h: Host, s: string, sep: char, user: UserOptions, fuel: nat)
    requires sep == '/' || sep == '\\'
    requires !EndsWithSep(s)
    ensures Walk(h, Text(s + [sep]), user, fuel) == Walk(h, Text(s), user, fuel)
  {
    assert (s + [sep])[..|s|] == s;
  }

  /** Once a prefix of the listing stops the walk (a throw or the depth
      bound), the rest of the listing is never looked at. */
  lemma {:induction false} ChildrenStopEarly(h: Host, c: Ctx, dir: Path, ds: seq<Dirent>, k: nat, fuel: nat)
    requires GetEncoding(dir) == c.encoding
    requires k <= |ds|
    requires WalkChildren(h, c, dir, ds[..k], fuel).stop != Finished
    ensures WalkChildren(h, c, dir, ds, fuel) == WalkChildren(h, c, dir, ds[..k], fuel)
    decreases |ds| - k
  {
    if k < |ds| {
      var init := ds[..|ds| - 1];
      assert init[..k] == ds[..k];
      ChildrenStopEarly(h, c, dir, init, k, fuel);
    } else {
      assert ds[..k] == ds;
    }
  }

  // ---------------------------------------------------------------------
  // The depth bound

  /** A walk that finished (or threw) within the depth bound gives the same
      trace under any larger bound: fuel only cuts off walks the source
      would carry on with. */
  lemma {:induction false} WalkDirFuel(h: Host, c: Ctx, dir: Path, fuel: nat, more: nat)
    requires GetEncoding(dir) == c.encoding
    requires fuel <= more
    requires WalkDir(h, c, dir, fuel).stop != OutOfFuel
    ensures WalkDir(h, c, dir, more) == WalkDir(h, c, dir, fuel)
    decreases fuel, 2, 0
  {
    match h.fs.readdir(dir)
    case ListFailed(_) =>
    case Listed(ds) => WalkChildrenFuel(h, c, dir, ds, fuel, more);
  }

  lemma {:induction false} WalkChildrenFuel(h: Host, c: Ctx, dir: Path, ds: seq<Dirent>, fuel: nat, more: nat)
    requires GetEncoding(dir) == c.encoding
    requires fuel <= more
    requires WalkChildren(h, c, dir, ds, fuel).stop != OutOfFuel
    ensures WalkChildren(h, c, dir, ds, more) == WalkChildren(h, c, dir, ds, fuel)
    decreases fuel, 1, |ds|
  {
    if ds != [] {
      var init := ds[..|ds| - 1];
      WalkChildrenFuel(h, c, dir, init, fuel, more);
      if WalkChildren(h, c, dir, init, fuel).stop == Finished {
        ChildFuel(h, c, dir, ds[|ds| - 1], fuel, more);
      }
    }
  }

  lemma {:induction false} ChildFuel(h: Host, c: Ctx, dir: Path, d: Dirent, fuel: nat, more: nat)
    requires GetEncoding(dir) == c.encoding
    requires fuel <= more
    requires Child(h, c, dir, d, fuel).stop != OutOfFuel
    ensures Child(h, c, dir, d, more) == Child(h, c, dir, d, fuel)
    decreases fuel, 0, 0
  {
    var path := MakePath(d, dir, c.encoding, h.decode);
    if fuel > 0 {
      if WalkDir(h, c, path, fuel - 1).stop != OutOfFuel {
        WalkDirFuel(h, c, path, fuel - 1, more - 1);
      }
    }
  }
}
