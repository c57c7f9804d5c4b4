/** The directory walker of index.ts: option defaults, matcher
    construction, path composition, entry building, and the depth-first
    traversal shared by `rrdirSync` and the lazy `rrdir` generator, written
    as pure functions over the abstract filesystem of FsModel. */
module Rrdir {
  import opened FsModel

  /** Options as the caller passes them: `None` is a key left out. */
  datatype UserOptions = UserOptions(
    strict: Option<bool>,
    stats: Option<bool>,
    followSymlinks: Option<bool>,
    includes: Option<seq<string>>,
    excludes: Option<seq<string>>,
    insensitive: Option<bool>)

  /** Options after the defaults are merged in. An absent pattern list
      stays absent (the default is `undefined`). */
  datatype Options = Options(
    strict: bool,
    stats: bool,
    followSymlinks: bool,
    includes: Option<seq<string>>,
    excludes: Option<seq<string>>,
    insensitive: bool)

  /** The glob engine, left abstract: `glob(patterns, insensitive, path)` is
      picomatch compiled from `patterns` with dot files visible and case
      folding when `insensitive`, applied to the resolved `path`. */
  type Glob = (seq<string>, bool, string) -> bool

  /** The collaborators of one walk: the filesystem, the UTF-8 decoder used
      for names and for matching byte paths, and the glob engine. */
  datatype Host = Host(fs: Fs, decode: seq<uint8> -> string, glob: Glob)

  /** The compiled matchers; `None` is a matcher the source sets to null. */
  datatype Matchers = Matchers(
    includeMatcher: Option<string -> bool>,
    excludeMatcher: Option<string -> bool>)

  /** What every recursive call receives unchanged: the merged options,
      the matchers compiled once, and the encoding chosen once. */
  datatype Ctx = Ctx(opts: Options, matchers: Matchers, encoding: Encoding)

  /** Each option takes the caller's value when the caller gave one and
      the default (false, or absent for the pattern lists) otherwise. */
  function WithDefaults(u: UserOptions): (o: Options)
    ensures o.strict <==> u.strict == Some(true)
    ensures o.stats <==> u.stats == Some(true)
    ensures o.followSymlinks <==> u.followSymlinks == Some(true)
    ensures o.insensitive <==> u.insensitive == Some(true)
    ensures o.includes == u.includes && o.excludes == u.excludes
  {
    Options(
      if u.strict.Some? then u.strict.value else false,
      if u.stats.Some? then u.stats.value else false,
      if u.followSymlinks.Some? then u.followSymlinks.value else false,
      u.includes,
      u.excludes,
      if u.insensitive.Some? then u.insensitive.value else false)
  }

  /** `list?.length` is truthy: the list is given and has at least one pattern. */
  predicate HasPatterns(list: Option<seq<string>>) {
    list.Some? && |list.value| > 0
  }

  /** `excludeMatcher?.(path)`: a null matcher excludes nothing. */
  predicate Excluded(m: Matchers, path: string) {
    m.excludeMatcher.Some? && m.excludeMatcher.value(path)
  }

  /** `!includeMatcher || includeMatcher(path)`: a null matcher includes everything. */
  predicate Included(m: Matchers, path: string) {
    m.includeMatcher.None? || m.includeMatcher.value(path)
  }

  /** Compiles the two pattern lists once. With no include patterns every
      path is included; with no exclude patterns no path is excluded;
      otherwise a path is included (excluded) exactly when the glob engine
      matches it against the include (exclude) patterns. */
  function MakeMatchers(opts: Options, glob: Glob): (m: Matchers)
    ensures forall p :: Included(m, p) <==>
      (!HasPatterns(opts.includes) || glob(opts.includes.value, opts.insensitive, p))
    ensures forall p :: Excluded(m, p) <==>
      (HasPatterns(opts.excludes) && glob(opts.excludes.value, opts.insensitive, p))
  {
    var insensitive := opts.insensitive;
    Matchers(
      if HasPatterns(opts.includes)
      then var pats := opts.includes.value; Some(p => glob(pats, insensitive, p))
      else None,
      if HasPatterns(opts.excludes)
      then var pats := opts.excludes.value; Some(p => glob(pats, insensitive, p))
      else None)
  }

  /** A Uint8Array root walks in buffer encoding, anything else in utf8. */
  function GetEncoding(dir: Path): (e: Encoding)
    ensures e == Buffer <==> dir.Bytes?
  {
    if dir.Bytes? then Buffer else Utf8
  }

  /** A listing's name in the requested encoding: raw bytes for buffer,
      the decoded string for utf8. */
  function NameIn(d: Dirent, enc: Encoding, decode: seq<uint8> -> string): Path {
    if enc == Buffer then Bytes(d.name) else Text(decode(d.name))
  }

  /** The string the matchers see: a text path as it is, a byte path decoded. */
  function MatchText(p: Path, decode: seq<uint8> -> string): string {
    match p
    case Text(s) => s
    case Bytes(b) => decode(b)
  }

  /** The child's path. Only a parent equal to the string "." gives the bare
      name; every other parent is followed by the separator and the name, in
      the parent's own representation. A byte parent is never equal to the
      string ".", so byte paths always concatenate. */
  function MakePath(d: Dirent, dir: Path, enc: Encoding, decode: seq<uint8> -> string): (r: Path)
    requires GetEncoding(dir) == enc
    ensures GetEncoding(r) == enc
    ensures r == NameIn(d, enc, decode) <==> dir == Text(".")
    ensures dir.Text? && dir != Text(".") ==>
      |r.s| == |dir.s| + 1 + |decode(d.name)| && r.s[..|dir.s|] == dir.s &&
      r.s[|dir.s|] == Sep && r.s[|dir.s| + 1..] == decode(d.name)
    ensures dir.Bytes? ==>
      |r.b| == |dir.b| + 1 + |d.name| && r.b[..|dir.b|] == dir.b &&
      r.b[|dir.b|..|dir.b| + 1] == SepBytes && r.b[|dir.b| + 1..] == d.name
  {
    if enc == Buffer then
      if dir == Text(".") then NameIn(d, enc, decode) else Bytes(dir.b + SepBytes + d.name)
    else
      if dir == Text(".") then NameIn(d, enc, decode) else Text(dir.s + [Sep] + decode(d.name))
  }

  /** The public record for a child: its type comes from the stat result
      when there is one and from the listing otherwise; the `stats` key is
      there exactly when the `stats` option is on (holding `undefined` when
      no stat result was obtained). */
  function Build(d: Dirent, path: Path, stats: Option<StatInfo>, opts: Options): (e: Entry)
    ensures e.Ok? && e.path == path
    ensures e.directory == (if stats.Some? then stats.value.isDir else d.isDir)
    ensures e.symlink == (if stats.Some? then stats.value.isLink else d.isLink)
    ensures e.stats.StatsKey? <==> opts.stats
    ensures e.stats.StatsKey? ==> e.stats.value == stats
  {
    Ok(path,
       (if stats.Some? then stats.value.isDir else d.isDir),
       (if stats.Some? then stats.value.isLink else d.isLink),
       if opts.stats then StatsKey(stats) else NoStatsKey)
  }

  /** The silent `stat` retried for a followed symbolic link: a failure
      only means "no target information", it is never reported. */
  function FallbackStat(fs: Fs, path: Path): Option<StatInfo> {
    match fs.stat(path)
    case StatOk(info) => Some(info)
    case StatFailed(_) => None
  }

  /** One directory: list it, then walk its children in listing order. A
      listing failure throws in strict mode and otherwise becomes the single
      error entry for this directory. */
  function WalkDir(h: Host, c: Ctx, dir: Path, fuel: nat): Trace
    requires GetEncoding(dir) == c.encoding
    decreases fuel, 2, 0
  {
    match h.fs.readdir(dir)
    case ListFailed(e) => if c.opts.strict then Trace([], Raised(e)) else Done([Err(dir, e)])
    case Listed(ds) => WalkChildren(h, c, dir, ds, fuel)
  }

  /** The children `ds` of `dir`, one after the other; the first child that
      stops the walk (a throw, or the depth bound) stops it for the rest. */
  function WalkChildren(h: Host, c: Ctx, dir: Path, ds: seq<Dirent>, fuel: nat): Trace
    requires GetEncoding(dir) == c.encoding
    decreases fuel, 1, |ds|
  {
    if ds == [] then Done([])
    else
      var t := WalkChildren(h, c, dir, ds[..|ds| - 1], fuel);
      if t.stop != Finished then t
      else Prepend(t.out, Child(h, c, dir, ds[|ds| - 1], fuel))
  }

  /** The stat call made for an included child when the `stats` option is
      on or the child is a symbolic link to follow: `stat` when following
      links, `lstat` otherwise; `None` when no call is made. */
  function Probe(h: Host, c: Ctx, d: Dirent, path: Path, included: bool): Option<StatResult> {
    if included && (c.opts.stats || (c.opts.followSymlinks && d.isLink))
    then Some(if c.opts.followSymlinks then h.fs.stat(path) else h.fs.lstat(path))
    else None
  }

  /** The records a child that survived the exclude check yields for its
      own path: none when it is not included; otherwise the entry built from
      the listing and the stat result, preceded by the stat's error record
      when the stat failed. */
  function OwnEntries(h: Host, c: Ctx, d: Dirent, path: Path): (own: seq<Entry>)
    ensures |own| <= 2
    ensures forall e | e in own :: e.path == path
    ensures forall e | e in own && e.Ok? :: e.stats.StatsKey? <==> c.opts.stats
  {
    var included := Included(c.matchers, MatchText(path, h.decode));
    var probe := Probe(h, c, d, path, included);
    var stats := if probe.Some? && probe.value.StatOk? then Some(probe.value.info) else None;
    if !included then []
    else
      (if probe.Some? && probe.value.StatFailed? then [Err(path, probe.value.err)] else [])
      + [Build(d, path, stats, c.opts)]
  }

  /** One child: exclude check, include check, optional stat, the entry,
      then the recursion decision, which looks only at the listing's
      directory flag or, for a followed symbolic link, at its target. */
  function Child(h: Host, c: Ctx, dir: Path, d: Dirent, fuel: nat): Trace
    requires GetEncoding(dir) == c.encoding
    decreases fuel, 0, 0
  {
    var path := MakePath(d, dir, c.encoding, h.decode);
    var text := MatchText(path, h.decode);
    if Excluded(c.matchers, text) then Done([])
    else
      var follow := c.opts.followSymlinks && d.isLink;
      var included := Included(c.matchers, text);
      var probe := Probe(h, c, d, path, included);
      if probe.Some? && probe.value.StatFailed? && c.opts.strict then
        Trace([], Raised(probe.value.err))
      else
        var stats := if probe.Some? && probe.value.StatOk? then Some(probe.value.info) else None;
        var emitted := OwnEntries(h, c, d, path);
        var target := if follow && stats.None? then FallbackStat(h.fs, path) else stats;
        var recurse := if follow then target.Some? && target.value.isDir else d.isDir;
        if !recurse then Done(emitted)
        else if fuel == 0 then Trace(emitted, OutOfFuel)
        else Prepend(emitted, WalkDir(h, c, path, fuel - 1))
  }

  /** `/[/\\]$/`: a text path whose last character is a slash or a backslash. */
  predicate EndsWithSep(s: string) {
    |s| > 0 && (s[|s| - 1] == '/' || s[|s| - 1] == '\\')
  }

  /** One trailing separator is removed from a text root; byte roots are
      left as they are. */
  function StripTrailingSep(root: Path): Path {
    if root.Text? && EndsWithSep(root.s) then Text(root.s[..|root.s| - 1]) else root
  }

  /** The context a top-level call builds once and hands to every level. */
  function TopCtx(h: Host, dir: Path, user: UserOptions): Ctx {
    var opts := WithDefaults(user);
    Ctx(opts, MakeMatchers(opts, h.glob), GetEncoding(dir))
  }

  /** A top-level call: merge defaults, compile matchers, strip one
      trailing separator, pick the encoding, walk. This is the sequence the
      lazy `rrdir` generator yields and, through Collect, what `rrdirSync`
      returns. */
  function Walk(h: Host, root: Path, user: UserOptions, fuel: nat): Trace {
    var dir := StripTrailingSep(root);
    WalkDir(h, TopCtx(h, dir, user), dir, fuel)
  }
}
