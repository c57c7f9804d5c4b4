/** The older walker of index.js: basename-based exclusion, name-based
    inclusion that lets every directory through, directories withheld from
    the output while include patterns are set, and recursion into listed
    directories only. Its three entry points (`rrdir`, `sync`, `stream`)
    run the same sequential loop, so one trace function describes them all. */
module Legacy {
  import opened FsModel

  /** The minimatch flags the walker sets; a caller may pass its own. */
  datatype MinimatchOpts = MinimatchOpts(matchBase: bool, dot: bool, nocomment: bool)

  /** The `minimatch` entry of the defaults. */
  const DefaultMinimatch: MinimatchOpts := MinimatchOpts(true, true, true)

  /** Options as the caller passes them: `None` is a key left out. */
  datatype UserOptions = UserOptions(
    strict: Option<bool>,
    stats: Option<bool>,
    followSymlinks: Option<bool>,
    includes: Option<seq<string>>,
    excludes: Option<seq<string>>,
    minimatch: Option<MinimatchOpts>)

  /** Options after `Object.assign({}, defaults, opts)`. */
  datatype Options = Options(
    strict: bool,
    stats: bool,
    followSymlinks: bool,
    includes: Option<seq<string>>,
    excludes: Option<seq<string>>,
    minimatch: MinimatchOpts)

  /** The glob engine, left abstract: `multimatch(name, patterns, mm)` holds
      when multimatch returns a non-empty list for `name` under the minimatch
      options `mm` (`None` when they are `undefined`). */
  type MultiMatch = (string, seq<string>, Option<MinimatchOpts>) -> bool

  /** The collaborators: the filesystem, the UTF-8 decoding of listed names,
      Node's `path.join`, and the glob engine. */
  datatype Host = Host(
    fs: Fs,
    decode: seq<uint8> -> string,
    join: (string, string) -> string,
    multimatch: MultiMatch)

  /** Defaults: not strict, no stats, follow symbolic links, empty pattern
      lists, and matchBase, dot and nocomment for minimatch. */
  function WithDefaults(u: UserOptions): (o: Options)
    ensures o.strict <==> u.strict == Some(true)
    ensures o.stats <==> u.stats == Some(true)
    ensures o.followSymlinks <==> u.followSymlinks != Some(false)
    ensures o.includes == (if u.includes.Some? then u.includes else Some([]))
    ensures o.excludes == (if u.excludes.Some? then u.excludes else Some([]))
    ensures o.minimatch == (if u.minimatch.Some? then u.minimatch.value else DefaultMinimatch)
  {
    Options(
      if u.strict.Some? then u.strict.value else false,
      if u.stats.Some? then u.stats.value else false,
      if u.followSymlinks.Some? then u.followSymlinks.value else true,
      if u.includes.Some? then u.includes else Some([]),
      if u.excludes.Some? then u.excludes else Some([]),
      if u.minimatch.Some? then u.minimatch.value else DefaultMinimatch)
  }

  predicate HasPatterns(list: Option<seq<string>>) {
    list.Some? && |list.value| > 0
  }

  /** Drops every trailing '/'. */
  function TrimTrailingSlashes(p: string): (r: string)
    ensures |r| <= |p| && r == p[..|r|]
    ensures r == [] || r[|r| - 1] != '/'
    ensures forall i | |r| <= i < |p| :: p[i] == '/'
  {
    if |p| > 0 && p[|p| - 1] == '/' then TrimTrailingSlashes(p[..|p| - 1]) else p
  }

  /** The characters after the last '/'. */
  function LastSegment(p: string): (r: string)
    ensures |r| <= |p| && r == p[|p| - |r|..]
    ensures '/' !in r
    ensures |r| < |p| ==> p[|p| - |r| - 1] == '/'
  {
    if p == [] then []
    else if p[|p| - 1] == '/' then []
    else LastSegment(p[..|p| - 1]) + [p[|p| - 1]]
  }

  /** `path.basename` on a POSIX host: the last segment once trailing
      slashes are dropped. */
  function Basename(p: string): string {
    LastSegment(TrimTrailingSlashes(p))
  }

  /** `isExcluded(path, opts)`: never with no exclude patterns; otherwise
      exactly when the basename of the path matches under the options'
      minimatch flags. */
  predicate IsExcluded(h: Host, path: string, excludes: Option<seq<string>>, mm: Option<MinimatchOpts>) {
    HasPatterns(excludes) && h.multimatch(Basename(path), excludes.value, mm)
  }

  /** `isIncluded(entry, opts)`: always with no include patterns and always
      for a directory; otherwise exactly when the entry's name matches. */
  predicate IsIncluded(h: Host, d: Dirent, name: string, o: Options) {
    !HasPatterns(o.includes) || d.isDir || h.multimatch(name, o.includes.value, Some(o.minimatch))
  }

  /** `canInclude(entry, opts)`: false exactly for a directory while include
      patterns are set. */
  predicate CanInclude(d: Dirent, includes: Option<seq<string>>) {
    !HasPatterns(includes) || !d.isDir
  }

  /** The legacy entry: type flags always come from the listing; a `stats`
      key is added only for a stat result that was obtained. */
  function Build(d: Dirent, path: string, stats: Option<StatInfo>): (e: Entry)
    ensures e.Ok? && e.path == Text(path)
    ensures e.directory == d.isDir && e.symlink == d.isLink
    ensures e.stats.StatsKey? <==> stats.Some?
    ensures e.stats.StatsKey? ==> e.stats.value == stats
  {
    Ok(Text(path), d.isDir, d.isLink, if stats.Some? then StatsKey(stats) else NoStatsKey)
  }

  /** A recursive call `rrdir(path, opts)`, whose options are already
      merged: an excluded directory yields nothing and is not read. */
  function WalkDir(h: Host, o: Options, dir: string, fuel: nat): Trace
    decreases fuel, 3, 0
  {
    if IsExcluded(h, dir, o.excludes, Some(o.minimatch)) then Done([])
    else ListDir(h, o, dir, fuel)
  }

  /** The rest of a call once the options are merged: a listing failure
      throws in strict mode and is otherwise the only entry. */
  function ListDir(h: Host, o: Options, dir: string, fuel: nat): Trace
    decreases fuel, 2, 0
  {
    match h.fs.readdir(Text(dir))
    case ListFailed(e) => if o.strict then Trace([], Raised(e)) else Done([Err(Text(dir), e)])
    case Listed(ds) => WalkChildren(h, o, dir, ds, fuel)
  }

  function WalkChildren(h: Host, o: Options, dir: string, ds: seq<Dirent>, fuel: nat): Trace
    decreases fuel, 1, |ds|
  {
    if ds == [] then Done([])
    else
      var t := WalkChildren(h, o, dir, ds[..|ds| - 1], fuel);
      if t.stop != Finished then t
      else Prepend(t.out, Child(h, o, dir, ds[|ds| - 1], fuel))
  }

  /** The stat call made for each child when the `stats` option is on. */
  function Probe(h: Host, o: Options, path: string): StatResult {
    if o.followSymlinks then h.fs.stat(Text(path)) else h.fs.lstat(Text(path))
  }

  /** The entries one child yields for its own path. */
  function OwnEntries(h: Host, o: Options, d: Dirent, path: string): seq<Entry> {
    if o.stats then
      var probe := Probe(h, o, path);
      (if probe.StatFailed? then [Err(Text(path), probe.err)] else [])
      + (if probe.StatOk? && CanInclude(d, o.includes) then [Build(d, path, Some(probe.info))] else [])
    else if CanInclude(d, o.includes) then [Build(d, path, None)]
    else []
  }

  /** One child: exclude on the basename, include on the name, the optional
      stat, the entry unless withheld, then recursion into a listed
      directory whatever its stat said. */
  function Child(h: Host, o: Options, dir: string, d: Dirent, fuel: nat): Trace
    decreases fuel, 0, 0
  {
    var name := h.decode(d.name);
    var path := h.join(dir, name);
    if IsExcluded(h, path, o.excludes, Some(o.minimatch)) then Done([])
    else if !IsIncluded(h, d, name, o) then Done([])
    else if o.stats && Probe(h, o, path).StatFailed? && o.strict then
      Trace([], Raised(Probe(h, o, path).err))
    else
      var own := OwnEntries(h, o, d, path);
      if !d.isDir then Done(own)
      else if fuel == 0 then Trace(own, OutOfFuel)
      else Prepend(own, WalkDir(h, o, path, fuel - 1))
  }

  /** A top-level call of `rrdir`, `rrdir.sync` or `rrdir.stream`: the
      starting directory is checked against the caller's own options, before
      the defaults (and their minimatch flags) are merged in. */
  function Walk(h: Host, dir: string, user: UserOptions, fuel: nat): Trace {
    if IsExcluded(h, dir, user.excludes, user.minimatch) then Done([])
    else ListDir(h, WithDefaults(user), dir, fuel)
  }
}
