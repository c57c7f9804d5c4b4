/** The small tree of test.js (`test/file1`, `test/subdir/file2`). The
    index.js walker gives the results test.js asserts; the index.ts walker's
    results on the same tree follow from its definition. */
module Scenarios {
  import opened FsModel
  import Rrdir
  import Legacy
  import LegacyProofs

  /** Byte-per-character coding, enough for the ASCII names of the tree. */
  function Latin1(b: seq<uint8>): string {
    seq(|b|, i requires 0 <= i < |b| => (b[i] as int) as char)
  }

  function Latin1Bytes(s: string): seq<uint8> {
    seq(|s|, i requires 0 <= i < |s| => (s[i] as int % 256) as uint8)
  }

  lemma Latin1RoundTrip(s: string)
    requires forall i | 0 <= i < |s| :: s[i] as int < 256
    ensures Latin1(Latin1Bytes(s)) == s
  {
  }

  const File1: Dirent := Dirent(Latin1Bytes("file1"), false, false)
  const Subdir: Dirent := Dirent(Latin1Bytes("subdir"), true, false)
  const File2: Dirent := Dirent(Latin1Bytes("file2"), false, false)

  /** `test` holds `file1` and the directory `subdir`, which holds `file2`;
      nothing else can be listed, and no stat succeeds (none is made). */
  function TestTree(): Fs {
    Fs(p => if p == Text("test") then Listed([File1, Subdir])
            else if p == Text("test/subdir") then Listed([File2])
            else ListFailed("ENOENT"),
       p => StatFailed("ENOENT"),
       p => StatFailed("ENOENT"))
  }

  function Plain(path: string, isDir: bool): Entry {
    Ok(Text(path), isDir, false, NoStatsKey)
  }

  lemma Names()
    ensures Latin1(File1.name) == "file1"
    ensures Latin1(Subdir.name) == "subdir"
    ensures Latin1(File2.name) == "file2"
    ensures "test" + "/" + "file1" == "test/file1"
    ensures "test" + "/" + "subdir" == "test/subdir"
    ensures "test/subdir" + "/" + "file2" == "test/subdir/file2"
  {
    Latin1RoundTrip("file1");
    Latin1RoundTrip("subdir");
    Latin1RoundTrip("file2");
  }

  // ---------------------------------------------------------------------
  // index.js

  /** `path.join` for these relative, already normal paths; the glob engine
      for patterns that are plain names. */
  function LegacyHost(): Legacy.Host {
    Legacy.Host(TestTree(), Latin1, (a, b) => a + "/" + b, (name, pats, mm) => name in pats)
  }

  const NoOptions: Legacy.UserOptions := Legacy.UserOptions(None, None, None, None, None, None)

  /** `rrdir.sync("test")` gives `test/file1`, `test/subdir`,
      `test/subdir/file2`, in that order. */
  lemma LegacyTreeOrder()
    ensures Legacy.Walk(LegacyHost(), "test", NoOptions, 1) ==
      Done([Plain("test/file1", false), Plain("test/subdir", true), Plain("test/subdir/file2", false)])
  {
    var h := LegacyHost();
    var o := Legacy.WithDefaults(NoOptions);
    Names();
    assert Legacy.Child(h, o, "test/subdir", File2, 0) == Done([Plain("test/subdir/file2", false)]);
    assert Legacy.WalkChildren(h, o, "test/subdir", [File2], 0) == Done([Plain("test/subdir/file2", false)]) by {
      assert [File2][..0] == [];
    }
    assert Legacy.Child(h, o, "test", Subdir, 1) ==
      Done([Plain("test/subdir", true), Plain("test/subdir/file2", false)]);
    assert Legacy.Child(h, o, "test", File1, 1) == Done([Plain("test/file1", false)]);
    assert Legacy.WalkChildren(h, o, "test", [File1], 1) == Done([Plain("test/file1", false)]) by {
      assert [File1][..0] == [];
    }
    assert [File1, Subdir][..1] == [File1];
  }

  const ExcludeSubdir: Legacy.UserOptions := NoOptions.(excludes := Some(["subdir"]))

  /** With exclude ["subdir"]: the directory `test/subdir` is dropped, the
      file `test/file1` is kept. */
  lemma ExcludeSubdirChildren()
    ensures Legacy.Child(LegacyHost(), Legacy.WithDefaults(ExcludeSubdir), "test", Subdir, 1) == Done([])
    ensures Legacy.Child(LegacyHost(), Legacy.WithDefaults(ExcludeSubdir), "test", File1, 1) ==
      Done([Plain("test/file1", false)])
  {
    Names();
    LegacyProofs.BasenameOfJoined("test", "subdir");
    LegacyProofs.BasenameOfJoined("test", "file1");
    assert "test" + [Sep] + "subdir" == "test/subdir";
    assert "test" + [Sep] + "file1" == "test/file1";
  }

  /** `rrdir.sync("test", {exclude: ["subdir"]})` gives only `test/file1`:
      the excluded directory and everything below it are gone. */
  lemma LegacyExcludeSubdir()
    ensures Legacy.Walk(LegacyHost(), "test", ExcludeSubdir, 1) == Done([Plain("test/file1", false)])
  {
    var h := LegacyHost();
    var o := Legacy.WithDefaults(ExcludeSubdir);
    LegacyProofs.BasenamePlain("test");
    assert !Legacy.IsExcluded(h, "test", ExcludeSubdir.excludes, ExcludeSubdir.minimatch);
    ExcludeSubdirChildren();
    assert Legacy.WalkChildren(h, o, "test", [File1], 1) == Done([Plain("test/file1", false)]) by {
      assert [File1][..0] == [];
    }
    assert [File1, Subdir][..1] == [File1];
  }

  // ---------------------------------------------------------------------
  // index.ts

  /** A stand-in for picomatch over this tree: a pattern list matches the
      paths that end in "/subdir", as `**` + `/subdir` does. */
  function SubdirGlob(): Rrdir.Glob {
    (pats, insensitive, p) => |p| >= 7 && p[|p| - 7..] == "/subdir"
  }

  function TsHost(): Rrdir.Host {
    Rrdir.Host(TestTree(), Latin1, SubdirGlob())
  }

  const NoTsOptions: Rrdir.UserOptions := Rrdir.UserOptions(None, None, None, None, None, None)

  /** What `rrdirSync("test")` of index.ts gives on the same tree: the same
      pre-order as the older walker. */
  lemma TreeOrder()
    ensures Rrdir.Walk(TsHost(), Text("test"), NoTsOptions, 1) ==
      Done([Plain("test/file1", false), Plain("test/subdir", true), Plain("test/subdir/file2", false)])
  {
    var h := TsHost();
    var dir := Text("test");
    var c := Rrdir.TopCtx(h, dir, NoTsOptions);
    Names();
    assert Rrdir.StripTrailingSep(dir) == dir;
    var sub := Text("test/subdir");
    assert Rrdir.Child(h, c, sub, File2, 0) == Done([Plain("test/subdir/file2", false)]);
    assert Rrdir.WalkChildren(h, c, sub, [File2], 0) == Done([Plain("test/subdir/file2", false)]) by {
      assert [File2][..0] == [];
    }
    assert Rrdir.Child(h, c, dir, Subdir, 1) ==
      Done([Plain("test/subdir", true), Plain("test/subdir/file2", false)]);
    assert Rrdir.Child(h, c, dir, File1, 1) == Done([Plain("test/file1", false)]);
    assert Rrdir.WalkChildren(h, c, dir, [File1], 1) == Done([Plain("test/file1", false)]) by {
      assert [File1][..0] == [];
    }
    assert [File1, Subdir][..1] == [File1];
  }

  const IncludeSubdir: Rrdir.UserOptions := NoTsOptions.(includes := Some(["**/subdir"]))

  /** With include patterns that match only the directory, the result is
      that directory alone. The directory is still descended into: its
      record is followed by its own walk, which lists `file2` and withholds
      it only because it is not included. */
  lemma IncludeOnlySubdir()
    ensures Rrdir.Walk(TsHost(), Text("test"), IncludeSubdir, 1) == Done([Plain("test/subdir", true)])
    ensures
      var c := Rrdir.TopCtx(TsHost(), Text("test"), IncludeSubdir);
      && Rrdir.Child(TsHost(), c, Text("test"), Subdir, 1) ==
           Prepend([Plain("test/subdir", true)], Rrdir.WalkDir(TsHost(), c, Text("test/subdir"), 0))
      && TestTree().readdir(Text("test/subdir")) == Listed([File2])
      && !Rrdir.Included(c.matchers, "test/subdir/file2")
      && !Rrdir.Excluded(c.matchers, "test/subdir/file2")
  {
    var h := TsHost();
    var dir := Text("test");
    var u := IncludeSubdir;
    var c := Rrdir.TopCtx(h, dir, u);
    Names();
    assert Rrdir.StripTrailingSep(dir) == dir;
    var sub := Text("test/subdir");
    assert !Rrdir.Included(c.matchers, "test/subdir/file2") by {
      assert "test/subdir/file2"[10..] != "/subdir";
    }
    assert !Rrdir.Included(c.matchers, "test/file1");
    assert Rrdir.Included(c.matchers, "test/subdir");
    assert Rrdir.Child(h, c, sub, File2, 0) == Done([]);
    assert Rrdir.WalkChildren(h, c, sub, [File2], 0) == Done([]) by {
      assert [File2][..0] == [];
    }
    assert Rrdir.Child(h, c, dir, Subdir, 1) == Done([Plain("test/subdir", true)]);
    assert Rrdir.Child(h, c, dir, File1, 1) == Done([]);
    assert Rrdir.WalkChildren(h, c, dir, [File1], 1) == Done([]) by {
      assert [File1][..0] == [];
    }
    assert [File1, Subdir][..1] == [File1];
  }
}
