# rrdir, modelled in Dafny

rrdir walks a directory tree recursively and returns one record per
filesystem object: its path, whether it is a directory, whether it is a
symbolic link, optionally its stat result, or an error record with only a
path and the error. Callers can filter by glob patterns (`include`,
`exclude`, `insensitive`), ask for stat results (`stats`), follow symbolic
links (`followSymlinks`) and choose between collecting errors as records
and throwing (`strict`). The root may be a string or a byte array; every
produced path keeps the root's representation.

The model covers both walkers in the repository:

- **index.ts**, the current walker (modules `Rrdir`, `RrdirProofs`,
  `RrdirFrontEnds`).
  - `Rrdir` holds pure functions for the helpers: `GetEncoding`,
    `MakePath`, `Build` and `MakeMatchers`, plus the option defaults.
  - The walk itself is written once, as mutually recursive functions:
    - `WalkDir` handles one directory;
    - `WalkChildren` walks the listing in order;
    - `Child` handles one listed entry;
    - `Walk` is the top-level call, which normalises the root and options.
  - `RrdirFrontEnds` writes `rrdirSync` and the lazy `rrdir` generator as
    imperative methods in the shape of the source. Each has a `results`
    sequence or a yielded sequence, a loop over the listing, and `stats`
    and `recurse` locals. Each is proved to produce exactly what `Walk`
    describes.
- **index.js**, the older walker (modules `Legacy`, `LegacyProofs`,
  `LegacyFrontEnd`).
  - Exclusion matches the basename, and inclusion matches the name and
    lets every directory through.
  - Directories are withheld from the output while include patterns are
    set, and recursion follows only directories as the listing reports
    them.
  - The starting directory is checked against the caller's own options,
    before the defaults are merged in. Every later check uses the merged
    options, whose minimatch flags are matchBase, dot and nocomment unless
    the caller gave its own.
  - `rrdir.sync` and `rrdir.stream` are imperative methods, proved to
    follow `Legacy.Walk`.
- **scenarios.dfy** walks the small tree of `test.js`.
  - For index.js it proves the results that test.js asserts.
  - For index.ts, which test.js does not exercise, it derives what the
    model's walk gives on the same tree.

How the host is represented (`FsModel`):

- The filesystem is a value `Fs(readdir, stat, lstat)`, each a function of
  the path, so the same path always gets the same answer during one walk.
- A listing entry carries its raw name bytes and its own type flags.
  Decoding names to text is a function the caller supplies.
- The glob engines are function parameters: picomatch for index.ts,
  multimatch for index.js. multimatch receives the minimatch options in
  force, or none when they are `undefined`. Node's `path.join` is a
  parameter too.
- The source has no cycle detection. A walk therefore takes a depth bound
  `fuel`, and a branch deeper than the bound ends the trace with an
  explicit `OutOfFuel` rather than being cut silently.
  - `RrdirProofs.WalkDirFuel` and `LegacyProofs.WalkFuel` prove, for
    each walker, that any walk that ends within the bound gives the same
    result under every larger bound.
- A walk's result is a `Trace`: the entries produced, in order, and how
  the walk ended (`Finished`, `Raised(err)` or `OutOfFuel`).
  - For the lazy generator, the trace is what the consumer receives.
  - For the eager calls, `Collect` turns the trace into the returned array,
    or into the thrown error with no results.

Two consequences of the source that the proofs make explicit:

- In non-strict mode, a failed stat for an included child gives the error
  record and then the record built from the listing entry
  (index.ts:236-241; `RrdirProofs.StatFailureKeepsEntry`).
- The lazy generator keeps what it yielded before a strict throw
  (index.ts:106,125). The eager calls discard it: `rrdirSync`
  (`FsModel.ThrowDiscards`) and `rrdirAsync`, which is not modelled.

## Model

| member | source | states |
|---|---|---|
| FsModel.ThrowDiscards | index.ts:236-238 | A throw after entries were pushed gives the eager caller the error alone; without a throw it gets those entries followed by everything after them. |
| Rrdir.WithDefaults | index.ts:47-54 | Each boolean option is the caller's value when given and false otherwise; the pattern lists stay absent when absent. |
| Rrdir.MakeMatchers | index.ts:73-89 | With no include patterns every path is included, with no exclude patterns nothing is excluded; otherwise inclusion and exclusion are exactly the glob engine's answer for the respective list and case setting. |
| Rrdir.GetEncoding | index.ts:45 | Buffer encoding exactly for a byte-array root. |
| Rrdir.MakePath | index.ts:56-62 | The bare name exactly when the parent is the string "."; otherwise parent, separator and name, as text for a text parent and as bytes for a byte parent (so byte parents always concatenate); the representation is preserved. |
| Rrdir.Build | index.ts:64-71 | The directory and symlink flags come from the stat result when there is one and from the listing entry otherwise; the stats key is present exactly when the `stats` option is on. |
| Rrdir.OwnEntries | index.ts:232-242 | A child's own records: at most two, all for the child's path, each non-error one carrying a stats key exactly when `stats` is on; what they contain is stated by RrdirProofs.StatSuccessRecord, FollowedLinkRecord and StatFailureKeepsEntry. |
| Rrdir.Probe | index.ts:232-240 | The stat or lstat call for an included child; its outcomes are stated by RrdirProofs.StatSuccessRecord, FollowedLinkRecord, StatFailureKeepsEntry, ThrowingChild and OwnEntriesIffIncluded. |
| Rrdir.FallbackStat | index.ts:246 | The silent stat retried for a followed link; RrdirProofs.BrokenLinkNotDescended states that its failure neither throws nor recurses. |
| Rrdir.Child | index.ts:224-252 | One child of the loop; specified by RrdirProofs.ExcludedChildSkipped, ChildThenSubtree, ThrowingChild, StatFailureKeepsEntry and ChildEntries. |
| Rrdir.WalkChildren | index.ts:223-253 | The loop over the listing in order; specified by RrdirProofs.ChildrenStopEarly, WalkChildrenEntries and ExcludeAllChildren. |
| Rrdir.WalkDir | index.ts:212-256 | One directory; specified by RrdirProofs.WalkDirEntries and WalkDirFuel. |
| Rrdir.Excluded | index.ts:225 | The exclude test on a child's path text; its meaning (never with no patterns, otherwise the glob engine's answer) is stated by Rrdir.MakeMatchers, and RrdirProofs.ExcludedChildSkipped and ExcludedNeverEmitted state its effect. |
| Rrdir.Included | index.ts:229 | The include test on a child's path text; its meaning (always with no patterns, otherwise the glob engine's answer) is stated by Rrdir.MakeMatchers, and RrdirProofs.OwnEntriesIffIncluded states its effect. |
| Rrdir.MatchText | index.ts:225-228 | The text the matchers see: a string path as it is, a byte path decoded; RrdirProofs.ExcludedNeverEmitted states exclusion on this text for every record. |
| Rrdir.NameIn | index.ts:56-62 | A listing name in the walk's encoding; Rrdir.MakePath states that it is the result exactly for the parent ".". |
| Rrdir.TopCtx | index.ts:203-209 | The one-time setup of a top-level call: merged options, compiled matchers and the encoding of the trimmed root; stated through Rrdir.WithDefaults, MakeMatchers and GetEncoding, and RrdirProofs.EntriesBelowRoot. |
| RrdirProofs.WillRecurse | index.ts:244-250 | The recurse decision: a followed link's stat target being a directory, otherwise the listing's directory flag; RrdirProofs.ChildThenSubtree and BrokenLinkNotDescended state its use. |
| Rrdir.StripTrailingSep | index.ts:206-208 | Removes one trailing separator from a text root; specified by RrdirProofs.TrailingSeparatorIgnored. |
| Rrdir.Walk | index.ts:202-210 | The top-level call; specified by RrdirProofs.EntriesBelowRoot, ExcludedNeverEmitted, StatsKeyIffOption, StrictRecordsOk, UnreadableRoot and ExcludeEverything. |
| RrdirProofs.ExcludedChildSkipped | index.ts:225 | An excluded child yields nothing and ends nothing, whatever the filesystem says: no stat, no listing below it. |
| RrdirProofs.ChildThenSubtree | index.ts:223-253 | A child that is not excluded and does not throw yields its own records and then exactly its subtree's walk; whether the subtree is walked depends on the listing's directory flag or the followed link's target, never on inclusion (pre-order). |
| RrdirProofs.OwnEntriesIffIncluded | index.ts:229-242 | A child yields records for its own path exactly when it is included, and the last of them is a normal record. |
| RrdirProofs.StatSuccessRecord | index.ts:231-241 | An included child whose stat succeeds, or which needs no stat, yields exactly one record, `build(dirent, path, stats)`: its type from the stat result when there is one and from the listing otherwise, and a stats key holding that result when `stats` is on. |
| RrdirProofs.FollowedLinkRecord | index.ts:227-241 | A followed symbolic link whose target can be stat-ed is reported with the target's directory and symlink flags, and with the target's stat result under the stats key when `stats` is on. |
| RrdirProofs.StatFailureKeepsEntry | index.ts:233-241 | In non-strict mode a failed stat gives the error record and then the listing-based record for the same path, in that order. |
| RrdirProofs.BrokenLinkNotDescended | index.ts:244-250 | A followed symbolic link whose target cannot be stat-ed ends normally and is not descended into: the fallback stat never raises. |
| RrdirProofs.ThrowingChild | index.ts:236-237 | A strict-mode stat failure on an included child throws that error before the child yields anything. |
| RrdirProofs.ChildIsUnder | index.ts:56-62 | A composed child path lies strictly below its parent, in the parent's representation. |
| RrdirProofs.UnderChildIsUnderParent | index.ts:56-62 | Anything at or below a child's path lies strictly below the parent. |
| RrdirProofs.WalkDirEntries | index.ts:212-256 | Every record of a directory's walk is its own non-strict listing error, or lies strictly below it, is not excluded, is an error record only outside strict mode, and carries a stats key exactly when `stats` is on. |
| RrdirProofs.WalkChildrenEntries | index.ts:223-253 | The same for the records of a run of listed children. |
| RrdirProofs.ChildEntries | index.ts:224-252 | The same for the records of one child and its subtree. |
| RrdirProofs.EntriesBelowRoot | index.ts:202-256 | Byte roots give byte paths only and text roots text paths only; every record lies below the trimmed root or is the root's own listing error. |
| RrdirProofs.ExcludedNeverEmitted | index.ts:225 | No record other than the root's own is for a path the exclude patterns match. |
| RrdirProofs.StrictRecordsOk | index.ts:218 | In strict mode no error record is ever produced: every failure throws instead. |
| RrdirProofs.StatsKeyIffOption | index.ts:69 | Every normal record carries a stats key exactly when the caller set `stats: true`; by default none does. |
| RrdirProofs.UnreadableRoot | index.ts:213-221 | A root that cannot be listed throws in strict mode before producing anything; otherwise the result is exactly one error record for the root. |
| RrdirProofs.ExcludeAllChildren | index.ts:223-225 | When the exclude matcher matches every path, a listing's children produce nothing. |
| RrdirProofs.ExcludeEverything | index.test.ts:129 | With exclude patterns that match every path, a readable root gives an empty result. |
| RrdirProofs.TrailingSeparatorIgnored | index.ts:206-208 | A string root with one trailing "/" or "\\" walks exactly like the root without it. |
| RrdirProofs.ChildrenStopEarly | index.ts:223-253 | Once a prefix of the listing throws or hits the depth bound, the rest of the listing is not looked at. |
| RrdirProofs.WalkDirFuel | index.ts:244-252 | A directory walk that ends within the depth bound gives the same trace under any larger bound. |
| RrdirProofs.WalkChildrenFuel | index.ts:223-253 | The same for a run of listed children. |
| RrdirProofs.ChildFuel | index.ts:244-252 | The same for one child and its subtree. |
| RrdirFrontEnds.WalkDirSync | index.ts:212-256 | One level of `rrdirSync` (listing, loop over children, results spliced in) returns exactly the collected walk of that directory. |
| RrdirFrontEnds.ChildSync | index.ts:224-252 | The loop body for one child (exclude, include, stat, push, recurse decision, recursive call) returns exactly the collected walk of that child. |
| RrdirFrontEnds.RrdirSync | index.ts:202-210 | `rrdirSync` with its normalisation returns exactly the collected top-level walk. |
| RrdirFrontEnds.WalkDirLazy | index.ts:101-143 | One level of the `rrdir` generator yields exactly the records of the directory's walk, and ends as it ends. |
| RrdirFrontEnds.ChildLazy | index.ts:112-141 | The generator's loop body for one child yields exactly that child's records and ends as the child's walk ends. |
| RrdirFrontEnds.RrdirLazy | index.ts:91-99 | The `rrdir` generator, drained, yields exactly the top-level walk's records and ends as it ends. |
| Legacy.WithDefaults | index.js:12-24 | Strict and stats default to false, followSymlinks to true, absent pattern lists to empty lists, and the minimatch flags to matchBase, dot and nocomment. |
| Legacy.TrimTrailingSlashes | index.js:28 | The result is the path with exactly its trailing "/" characters removed: a prefix, not ending in "/", followed in the path only by "/". |
| Legacy.LastSegment | index.js:28 | The result is a suffix without "/", preceded in the path by "/" unless it is the whole path. |
| Legacy.Basename | index.js:28 | `path.basename`; specified by LegacyProofs.BasenamePlain and BasenameOfJoined. |
| Legacy.IsExcluded | index.js:26-29 | Exclusion on the basename under the given minimatch options; specified by LegacyProofs.FilterDefaults, BasenameOfJoined and ExcludedRoot. |
| Legacy.IsIncluded | index.js:31-34 | Inclusion on the name, always for directories; specified by LegacyProofs.FilterDefaults. |
| Legacy.CanInclude | index.js:37-40 | Whether an entry may be emitted; specified by LegacyProofs.FilterDefaults and DirectoriesWithheld. |
| Legacy.Build | index.js:42-46 | The directory and symlink flags always come from the listing entry; a stats key is present exactly when a stat result was obtained. |
| Legacy.OwnEntries | index.js:111-122 | The records one entry yields for its own path; specified by LegacyProofs.StatsOutcome (stats on), NoStatsRecord (stats off) and ChildRecursion. |
| Legacy.Probe | index.js:114 | The stat call for an entry when `stats` is on: stat when following links, lstat otherwise (also index.js:73 and :154); its outcomes are stated by LegacyProofs.StatsOutcome, and LegacyProofs.NoStatWithoutStats proves it is never consulted with `stats` off. |
| Legacy.Child | index.js:107-124 | One entry of the loop; specified by LegacyProofs.ChildRecursion, StatsOutcome and ChildEntries. |
| Legacy.WalkChildren | index.js:106-125 | The loop over the listing in order; specified by LegacyProofs.ChildrenStopEarly and LegacyProofs.WalkChildrenEntries. |
| Legacy.ListDir | index.js:92-127 | A call after the merge: listing, error shaping and the loop; specified by LegacyProofs.ListDirEntries and UnreadableDir. |
| Legacy.WalkDir | index.js:89-128 | A recursive call on merged options; specified by LegacyProofs.WalkDirEntries, NoStatWithoutStats and WalkDirFuel. |
| Legacy.Walk | index.js:89-91 | The top-level call, excluded on the caller's own options; specified by LegacyProofs.ExcludedRoot, UnreadableDir, DirectoriesWithheld, StrictRecordsOk and WalkFuel. |
| LegacyProofs.FilterDefaults | index.js:26-40 | With no exclude patterns nothing is excluded; with no include patterns everything is included and may be emitted; every directory passes the include check; an entry cannot be emitted exactly when include patterns are set and it is a directory. |
| LegacyProofs.LastSegmentAppend | index.js:28 | Appending a character other than "/" extends the last segment by that character. |
| LegacyProofs.LastSegmentPlain | index.js:28 | A string without "/" is its own last segment. |
| LegacyProofs.BasenamePlain | index.js:28 | A non-empty name without "/" is its own basename. |
| LegacyProofs.LastSegmentAfterSep | index.js:28 | The last segment of a directory, "/" and a name without "/" is that name. |
| LegacyProofs.BasenameOfJoined | index.js:26-29 | The basename the exclude check matches, for a directory joined with a plain name, is that name. |
| LegacyProofs.ChildRecursion | index.js:65-84 | A child failing either filter yields nothing; one that passes and does not throw yields its own records and then its subtree, which is walked exactly when the listing calls it a directory. |
| LegacyProofs.NoStatsRecord | index.js:120-122 | With `stats` off, an entry yields exactly the listing-based record without a stats key when canInclude holds, and nothing otherwise. |
| LegacyProofs.StatsOutcome | index.js:71-79 | With `stats` on, a successful stat yields the record with its stats unless withheld by `canInclude`; a failed stat yields only the error record in non-strict mode and throws in strict mode. |
| LegacyProofs.ExcludedRoot | index.js:49 | A starting directory that the caller's own options exclude gives an empty result whatever the filesystem holds: it is not read. |
| LegacyProofs.UnreadableDir | index.js:54-63 | A starting directory that the caller's own options do not exclude and that cannot be listed throws in strict mode; otherwise the result is that one error record. |
| LegacyProofs.WalkDirEntries | index.js:48-87 | Every record of a recursive call is an error record only outside strict mode, is a non-directory while include patterns are set, and carries a stats key exactly when `stats` is on, holding a real stat result. |
| LegacyProofs.ListDirEntries | index.js:51-86 | The same for a call after the merge. |
| LegacyProofs.WalkChildrenEntries | index.js:65-84 | The same for a run of listed children. |
| LegacyProofs.ChildEntries | index.js:66-83 | The same for one child and its subtree. |
| LegacyProofs.DirectoriesWithheld | index.js:80 | While include patterns are set no directory record is produced; a stats key is present exactly when the caller set `stats: true`. |
| LegacyProofs.StrictRecordsOk | index.js:57-58 | In strict mode no error record is ever produced: every failure throws instead. |
| LegacyProofs.NoStatWithoutStats | index.js:71-83 | Without `stats` the walk never consults stat or lstat, so symbolic links to directories are never descended into. |
| LegacyProofs.NoStatListing | index.js:54-84 | The same for a call after the merge. |
| LegacyProofs.NoStatChildren | index.js:65-84 | The same for a run of listed children. |
| LegacyProofs.ChildrenStopEarly | index.js:106-125 | Once a prefix of the listing throws or hits the depth bound, the rest is not looked at. |
| LegacyProofs.WalkDirFuel | index.js:83 | A recursive call that ends within the depth bound gives the same trace under any larger bound. |
| LegacyProofs.ListDirFuel | index.js:54-84 | The same for a call after the merge. |
| LegacyProofs.WalkChildrenFuel | index.js:65-84 | The same for a run of listed children. |
| LegacyProofs.ChildFuel | index.js:83 | The same for one child and its subtree. |
| LegacyProofs.WalkFuel | index.js:48-87 | The same for a top-level call. |
| LegacyFrontEnd.WalkDirSync | index.js:90 | A recursive call of `rrdir.sync` with merged options: the exclude check, then exactly the collected walk of that directory. |
| LegacyFrontEnd.ListDirSync | index.js:92-127 | The body after the merge (listing, loop, results spliced in) returns exactly the collected walk. |
| LegacyFrontEnd.ChildSync | index.js:107-124 | The loop body for one entry returns exactly the collected walk of that child. |
| LegacyFrontEnd.Sync | index.js:89-91 | `rrdir.sync`, with its exclude check on the caller's own options and the merge of defaults, returns exactly the collected top-level walk. |
| LegacyFrontEnd.WalkDirStream | index.js:131 | A recursive call of the `rrdir.stream` generator: the exclude check, then exactly the directory's walk. |
| LegacyFrontEnd.ListDirStream | index.js:133-165 | The generator's body after the merge yields exactly the records of the walk and ends as it ends. |
| LegacyFrontEnd.ChildStream | index.js:147-164 | The generator's loop body for one entry yields exactly that child's records. |
| LegacyFrontEnd.Stream | index.js:130-132 | `rrdir.stream`, drained, yields exactly the top-level walk's records. |
| Scenarios.LegacyTreeOrder | test.js:14-24 | `rrdir.sync("test")` gives `test/file1`, `test/subdir`, `test/subdir/file2`, in that order, with the expected flags. |
| Scenarios.ExcludeSubdirChildren | test.js:27-28 | With exclude `["subdir"]` the directory is dropped and the file is kept. |
| Scenarios.LegacyExcludeSubdir | test.js:26-34 | With exclude `["subdir"]` the result is only `test/file1`. |
| Scenarios.TreeOrder | index.ts:223-253 | The model's prediction for index.ts on test.js's tree: the same pre-order as the older walker. |
| Scenarios.IncludeOnlySubdir | index.ts:223-253 | The model's prediction for index.ts on test.js's tree with include patterns matching only the directory: that directory's record alone, followed by its own walk, in which `file2` is listed but is neither included nor excluded. |

## Left out

- rrdirAsync (index.ts:145-200): it fans out sibling children concurrently
  and appends to a shared array, so sibling order depends on scheduling.
  It is not modelled, and neither is the claim that it yields the same
  multiset as `rrdirSync`.
- The legacy async `rrdir` (index.js:48-87) is not a separate member. It
  runs the same sequential loop as `rrdir.sync`, with each call awaited in
  turn, so `LegacyFrontEnd.Sync` describes its result.
- Real filesystem calls: readdir, stat and lstat, and their sync forms,
  are the functions of an `Fs` value. Timing, races and a filesystem that
  changes during the walk are not modelled.
- Glob semantics: picomatch, multimatch and minimatch options, and
  `resolve()` making paths absolute before matching, are opaque predicates
  supplied by the caller.
- `insensitive` is passed to the opaque glob engine; case folding itself is
  not modelled.
- The caller's `minimatch` option is modelled by its three flags
  (matchBase, dot, nocomment); any other minimatch setting is part of the
  opaque multimatch parameter.
- UTF-8 encoding and decoding of names and byte paths: a caller-supplied
  function. Its lossiness on invalid bytes is not modelled.
- Node `Stats` objects beyond `isDirectory()` and `isSymbolicLink()`.
- Symbolic-link cycles: the source recurses without bound. The model stops
  at the depth bound with `OutOfFuel`; `rrdirSync` and `rrdir.sync` then
  give `Unbounded`.
- The separator is the POSIX "/" only. Windows separators are not
  modelled, apart from the "\\" that the root trimming regular expression
  removes.
- The legacy `encoding` option: only the default utf8 is modelled, so
  legacy paths are text. `path.join` is opaque, so its normalisation is not
  modelled.
- An option given explicitly as `undefined` is treated like an absent key.
- Async generator suspension and consumer cancellation: a drained
  generator is modelled by its full trace.
