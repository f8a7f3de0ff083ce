/**
 * `zip_tex_file`: the LaTeX sources of a contribution book are walked
 * directory by directory and every file that is neither hidden nor Python
 * is written to the archive under its path relative to the source
 * directory.
 */
module TexArchive {

  import opened PyStrings

  /** The file-name filter: no leading dot and none of the Python suffixes. */
  predicate Included(name: string) {
    !StartsWith(name, ".") && !EndsWith(name, ".py") && !EndsWith(name, ".pyc") && !EndsWith(name, ".pyo")
  }

  /** One step of `os.walk`: a directory, given by its path components
      below the source directory (`[]` is the source directory itself),
      and the names of the files in it. */
  datatype WalkEntry = WalkEntry(dir: seq<string>, files: seq<string>)

  /** `"/".join(parts)`. */
  function JoinPath(parts: seq<string>): string {
    if parts == [] then []
    else if |parts| == 1 then parts[0]
    else JoinPath(parts[..|parts| - 1]) + "/" + parts[|parts| - 1]
  }

  /** `os.path.relpath(os.path.join(dirpath, f), source_dir)`. */
  function RelPath(dir: seq<string>, f: string): string {
    JoinPath(dir + [f])
  }

  /** The archive names written for the first files of one directory. */
  function EntryNames(dir: seq<string>, files: seq<string>): seq<string> {
    if files == [] then []
    else
      var last := files[|files| - 1];
      EntryNames(dir, files[..|files| - 1]) + (if Included(last) then [RelPath(dir, last)] else [])
  }

  /** The archive names written for a whole walk, in walk order. */
  function ArchiveNames(walk: seq<WalkEntry>): seq<string> {
    if walk == [] then []
    else
      var last := walk[|walk| - 1];
      ArchiveNames(walk[..|walk| - 1]) + EntryNames(last.dir, last.files)
  }

  /** The loop of `zip_tex_file`: the names handed to `ZipFile.write`, in
      order. */
  method ZipTexFile(walk: seq<WalkEntry>) returns (written: seq<string>)
    ensures written == ArchiveNames(walk)
  {
    written := [];
    var i := 0;
    while i < |walk|
      invariant 0 <= i <= |walk|
      invariant written == ArchiveNames(walk[..i])
    {
      var entry := walk[i];
      var j := 0;
      ghost var before := written;
      while j < |entry.files|
        invariant 0 <= j <= |entry.files|
        invariant written == before + EntryNames(entry.dir, entry.files[..j])
      {
        var f := entry.files[j];
        assert entry.files[..j + 1][..j] == entry.files[..j];
        if !Included(f) {
          j := j + 1;
          continue;
        }
        written := written + [RelPath(entry.dir, f)];
        j := j + 1;
      }
      assert entry.files[..j] == entry.files;
      assert walk[..i + 1][..i] == walk[..i];
      i := i + 1;
    }
    assert walk[..i] == walk;
  }

  /** File `j` of a directory is written, under the archive name `name`. */
  predicate WrittenAs(dir: seq<string>, files: seq<string>, j: int, name: string) {
    0 <= j < |files| && Included(files[j]) && name == RelPath(dir, files[j])
  }

  /** A directory contributes exactly the paths of its included files. */
  lemma {:induction false} EntryMembers(dir: seq<string>, files: seq<string>, name: string)
    ensures name in EntryNames(dir, files) <==> exists j :: WrittenAs(dir, files, j, name)
  {
    if files != [] {
      var p := files[..|files| - 1];
      var last := files[|files| - 1];
      EntryMembers(dir, p, name);
      assert EntryNames(dir, files) == EntryNames(dir, p) + (if Included(last) then [RelPath(dir, last)] else []);
      if name in EntryNames(dir, files) && name !in EntryNames(dir, p) {
        assert WrittenAs(dir, files, |p|, name);
      }
      if name in EntryNames(dir, p) {
        var j :| WrittenAs(dir, p, j, name);
        assert files[j] == p[j];
        assert WrittenAs(dir, files, j, name);
      }
      if exists j :: WrittenAs(dir, files, j, name) {
        var j :| WrittenAs(dir, files, j, name);
        if j < |p| {
          assert p[j] == files[j];
          assert WrittenAs(dir, p, j, name);
        } else {
          assert j == |p| && files[j] == last;
        }
      }
    }
  }

  /** The archive holds exactly the relative paths of the included files of
      every walked directory: the filter looks only at the file name, so a
      file in a hidden directory is kept. */
  lemma {:induction false} ArchiveMembers(walk: seq<WalkEntry>, name: string)
    ensures name in ArchiveNames(walk) <==>
            exists i, j :: 0 <= i < |walk| && WrittenAs(walk[i].dir, walk[i].files, j, name)
  {
    if walk != [] {
      var p := walk[..|walk| - 1];
      var last := walk[|walk| - 1];
      ArchiveMembers(p, name);
      EntryMembers(last.dir, last.files, name);
      if name in ArchiveNames(p) {
        var i, j :| 0 <= i < |p| && WrittenAs(p[i].dir, p[i].files, j, name);
        assert walk[i] == p[i];
      }
      if name in EntryNames(last.dir, last.files) {
        var j :| WrittenAs(last.dir, last.files, j, name);
        assert 0 <= |walk| - 1 < |walk| && WrittenAs(walk[|walk| - 1].dir, walk[|walk| - 1].files, j, name);
      }
      if exists i, j :: 0 <= i < |walk| && WrittenAs(walk[i].dir, walk[i].files, j, name) {
        var i, j :| 0 <= i < |walk| && WrittenAs(walk[i].dir, walk[i].files, j, name);
        if i < |p| {
          assert p[i] == walk[i];
          assert WrittenAs(p[i].dir, p[i].files, j, name);
        }
      }
    }
  }

  /** A relative path is the file name itself in the source directory, and
      the directory's path, a separator and the file name below it. */
  lemma RelPathShape(dir: seq<string>, f: string)
    ensures dir == [] ==> RelPath(dir, f) == f
    ensures dir != [] ==> RelPath(dir, f) == JoinPath(dir) + "/" + f
  {
    var parts := dir + [f];
    assert parts[..|parts| - 1] == dir;
  }

  /** No archived name is a Python source or compiled file. */
  lemma NoPythonArchived(walk: seq<WalkEntry>, name: string)
    requires name in ArchiveNames(walk)
    ensures !EndsWith(name, ".py") && !EndsWith(name, ".pyc") && !EndsWith(name, ".pyo")
  {
    ArchiveMembers(walk, name);
    var i, j :| 0 <= i < |walk| && WrittenAs(walk[i].dir, walk[i].files, j, name);
    var dir, f := walk[i].dir, walk[i].files[j];
    assert Included(f) && name == RelPath(dir, f);
    SuffixOfName(dir, f, ".py");
    SuffixOfName(dir, f, ".pyc");
    SuffixOfName(dir, f, ".pyo");
  }

  /** A relative path ends with a suffix that holds no separator exactly
      when the file name does. */
  lemma SuffixOfName(dir: seq<string>, f: string, suffix: string)
    requires forall k :: 0 <= k < |suffix| ==> suffix[k] != '/'
    ensures EndsWith(RelPath(dir, f), suffix) <==> EndsWith(f, suffix)
  {
    RelPathShape(dir, f);
    if dir != [] {
      var name := RelPath(dir, f);
      var s := JoinPath(dir) + "/";
      assert name == s + f;
      assert name[|s| - 1] == '/';
      if |suffix| <= |f| {
        assert name[|name| - |suffix|..] == f[|f| - |suffix|..];
      } else if |suffix| <= |name| {
        var k := |suffix| - |f| - 1;
        assert name[|name| - |suffix|..][k] == '/';
      }
    }
  }
}
