/** The host environment the walker runs against: paths in their two
    representations, directory entries as a listing returns them, the
    result records the walker produces, and the abstract filesystem that
    stands in for readdir, stat and lstat. */
module FsModel {

  datatype Option<+T> = None | Some(value: T)

  /** One byte of a raw (buffer) path. */
  newtype uint8 = x: int | 0 <= x < 256

  /** A path keeps the representation of the root it descends from:
      text for a string root, raw bytes for a Uint8Array root. */
  datatype Path = Text(s: string) | Bytes(b: seq<uint8>)

  /** The encoding readdir is asked to use for the names it returns. */
  datatype Encoding = Utf8 | Buffer

  /** The path separator of a POSIX host, as text and as its encoded bytes. */
  const Sep: char := '/'
  const SepBytes: seq<uint8> := [0x2F]

  /** A host error (ENOENT, EACCES, ...), identified by its code. */
  type IoError = string

  /** A directory entry as readdir(withFileTypes) reports it: the raw name
      and the entry's own type, which for a symbolic link is the link, not
      its target. */
  datatype Dirent = Dirent(name: seq<uint8>, isDir: bool, isLink: bool)

  /** The part of a stat result the walker looks at. */
  datatype StatInfo = StatInfo(isDir: bool, isLink: bool)

  datatype Listing = Listed(dirents: seq<Dirent>) | ListFailed(err: IoError)

  datatype StatResult = StatOk(info: StatInfo) | StatFailed(err: IoError)

  /** The filesystem: a directory listing, a stat that follows symbolic links
      and an lstat that does not. Each is a fixed function of the path, so two
      calls on the same path during one walk see the same answer. */
  datatype Fs = Fs(
    readdir: Path -> Listing,
    stat: Path -> StatResult,
    lstat: Path -> StatResult)

  /** Whether an entry carries a `stats` key and, if it does, its value:
      `StatsKey(None)` is a key present with the value `undefined`. */
  datatype StatsField = NoStatsKey | StatsKey(value: Option<StatInfo>)

  /** A produced result: a real filesystem object, or an access failure
      that carries only the path and the error. */
  datatype Entry =
    | Ok(path: Path, directory: bool, symlink: bool, stats: StatsField)
    | Err(path: Path, err: IoError)

  /** How a walk (or a part of one) ended. `Raised` is an exception thrown
      in strict mode; `OutOfFuel` marks a walk deeper than the depth bound
      the model was given, where the source would keep descending. */
  datatype Stop = Finished | Raised(err: IoError) | OutOfFuel

  /** What a walk produces in order, and how it ended: for a lazy generator,
      `out` is what the consumer received before the generator returned or
      threw. */
  datatype Trace = Trace(out: seq<Entry>, stop: Stop)

  /** What an eager (array-returning) call gives its caller: the whole array,
      or the thrown error and no results at all. */
  datatype SyncResult = Returned(entries: seq<Entry>) | Threw(err: IoError) | Unbounded

  function Done(out: seq<Entry>): Trace {
    Trace(out, Finished)
  }

  /** `out` emitted first, then everything `rest` produced, ending as `rest` ends. */
  function Prepend(out: seq<Entry>, rest: Trace): Trace {
    Trace(out + rest.out, rest.stop)
  }

  /** The eager array result that corresponds to a trace: an exception
      discards everything produced so far. */
  function Collect(t: Trace): SyncResult {
    match t.stop
    case Finished => Returned(t.out)
    case Raised(e) => Threw(e)
    case OutOfFuel => Unbounded
  }

  /** A throw after entries were pushed discards them: the eager caller gets
      the error alone. Without a throw it gets those entries followed by
      everything after them. */
  lemma ThrowDiscards(pushed: seq<Entry>, rest: Trace)
    ensures rest.stop.Raised? ==> Collect(Prepend(pushed, rest)) == Threw(rest.stop.err)
    ensures rest.stop == Finished ==> Collect(Prepend(pushed, rest)) == Returned(pushed + rest.out)
  {
  }
}
