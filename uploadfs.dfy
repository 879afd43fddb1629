/** The push engine's view of the local file system (upload-source
    `FileSystemService`): a recursive directory walk, file reads, `stat`,
    and paths relative to the manifest's directory. Paths are the strings
    the engine passes around; they name files through `Resolve`. */
module UploadFileSystem {
  import opened Wrappers
  import opened Strings
  import opened Paths
  import opened LocalDisk

  // ---------------------------------------------------------------------
  // getAllFiles

  /** A directory entry as `fs.readdir(dir, { withFileTypes: true })`
      reports it, with the contents of a sub-directory attached. */
  datatype Node = File(name: string) | Folder(name: string, children: seq<Node>)

  /** The paths the walk pushes, in the order it pushes them: a file is
      pushed where it is met, a folder is descended into at once. */
  function Walk(dir: Path, entries: seq<Node>): seq<Path>
    decreases entries
  {
    if entries == [] then []
    else
      (match entries[0]
       case File(n) => [dir + [n]]
       case Folder(n, children) => Walk(dir + [n], children)) + Walk(dir, entries[1..])
  }

  /** `rel` names a file (not a folder) of the tree `entries`. */
  predicate HasFile(entries: seq<Node>, rel: seq<string>)
    decreases entries
  {
    if entries == [] then false
    else
      (match entries[0]
       case File(n) => rel == [n]
       case Folder(n, children) => |rel| >= 1 && rel[0] == n && HasFile(children, rel[1..]))
      || HasFile(entries[1..], rel)
  }

  predicate Below(dir: Path, p: Path) {
    |p| > |dir| && p[..|dir|] == dir
  }

  lemma {:induction false} WalkAppend(dir: Path, a: seq<Node>, b: seq<Node>)
    ensures Walk(dir, a + b) == Walk(dir, a) + Walk(dir, b)
    decreases a
  {
    if a == [] {
      assert a + b == b;
    } else {
      assert (a + b)[0] == a[0] && (a + b)[1..] == a[1..] + b;
      WalkAppend(dir, a[1..], b);
      var head := match a[0]
                  case File(n) => [dir + [n]]
                  case Folder(n, children) => Walk(dir + [n], children);
      assert Walk(dir, a) == head + Walk(dir, a[1..]);
      assert Walk(dir, a + b) == head + Walk(dir, a[1..] + b);
    }
  }

  /** The walk lists exactly the files of the tree, each below `dir`. */
  lemma {:induction false} WalkExact(dir: Path, entries: seq<Node>, p: Path)
    ensures p in Walk(dir, entries) <==> Below(dir, p) && HasFile(entries, p[|dir|..])
    decreases entries
  {
    if entries != [] {
      WalkExact(dir, entries[1..], p);
      match entries[0]
      case File(n) =>
        if p == dir + [n] {
          assert p[|dir|..] == [n];
        }
        if Below(dir, p) && p[|dir|..] == [n] {
          assert p == p[..|dir|] + p[|dir|..];
        }
      case Folder(n, children) =>
        var sub := dir + [n];
        WalkExact(sub, children, p);
        if Below(sub, p) {
          assert p[..|dir|] == sub[..|dir|];
          assert p[|dir|..][1..] == p[|sub|..];
        }
        if Below(dir, p) && |p[|dir|..]| >= 1 && p[|dir|..][0] == n && HasFile(children, p[|dir|..][1..]) {
          assert p[|dir|..][1..] == p[|sub|..];
          HasFileNonEmpty(children, p[|sub|..]);
          assert p[..|sub|] == p[..|dir|] + [p[|dir|]];
        }
    }
  }

  lemma {:induction false} HasFileNonEmpty(entries: seq<Node>, rel: seq<string>)
    requires HasFile(entries, rel)
    ensures |rel| >= 1
    decreases entries
  {
    if entries[0].Folder? && |rel| >= 1 && rel[0] == entries[0].name && HasFile(entries[0].children, rel[1..]) {
    } else if !(entries[0].File? && rel == [entries[0].name]) {
      HasFileNonEmpty(entries[1..], rel);
    }
  }

  /** The tree `entries` is what `readdir` shows below `dir` on `d`: a
      path below `dir` is a file of the tree exactly when it is a file of
      the disk. */
  ghost predicate Describes(d: Disk, dir: Path, entries: seq<Node>) {
    forall p :: Below(dir, p) ==> (p in d.files <==> HasFile(entries, p[|dir|..]))
  }

  /** `getAllFiles` over a tree the disk describes: every file below the
      manifest's directory and nothing else, so never a directory, and the
      manifest itself among them. */
  lemma GetAllFilesExact(d: Disk, manifest: Path, entries: seq<Node>)
    requires WellFormed(d) && |manifest| >= 1
    requires Describes(d, Dirname(manifest), entries)
    ensures forall p :: p in Walk(Dirname(manifest), entries) <==> Below(Dirname(manifest), p) && p in d.files
    ensures forall p :: p in Walk(Dirname(manifest), entries) ==> p !in d.dirs
    ensures manifest in d.files ==> manifest in Walk(Dirname(manifest), entries)
  {
    var dir := Dirname(manifest);
    forall p ensures p in Walk(dir, entries) <==> Below(dir, p) && p in d.files {
      WalkExact(dir, entries, p);
    }
    assert Below(dir, manifest);
  }

  /** The array `getAllFiles` pushes into. */
  class FileCollector {
    var files: seq<Path>

    constructor ()
      ensures files == []
    {
      files := [];
    }

    /** `readDirRecursive`: every entry in order; a folder is walked
        before the next entry is looked at. */
    method ReadDirRecursive(dir: Path, entries: seq<Node>)
      modifies this
      ensures files == old(files) + Walk(dir, entries)
      decreases entries
    {
      var i := 0;
      while i < |entries|
        invariant 0 <= i <= |entries|
        invariant files == old(files) + Walk(dir, entries[..i])
      {
        WalkAppend(dir, entries[..i], [entries[i]]);
        assert entries[..i + 1] == entries[..i] + [entries[i]];
        match entries[i] {
          case File(n) =>
            files := files + [dir + [n]];
          case Folder(n, children) =>
            ReadDirRecursive(dir + [n], children);
        }
        i := i + 1;
      }
      assert entries[..|entries|] == entries;
    }
  }

  /** `getAllFiles(manifestPath)`: the walk of the manifest's directory,
      whose listing is given as `entries`. */
  method GetAllFiles(cwd: Path, manifestPath: string, entries: seq<Node>) returns (files: seq<Path>)
    ensures files == Walk(Dirname(Resolve(cwd, manifestPath)), entries)
  {
    var collector := new FileCollector();
    collector.ReadDirRecursive(Dirname(Resolve(cwd, manifestPath)), entries);
    files := collector.files;
  }

  // ---------------------------------------------------------------------
  // readFileContent, getFileStats, getRelativePath

  /** `readFileContent`: the file's text, or an error naming the path. */
  function ReadFileContent(cwd: Path, d: Disk, filePath: string): (r: Result<string, Thrown>)
    ensures r.Ok? <==> Resolve(cwd, filePath) in d.files
    ensures r.Ok? ==> r.value == d.files[Resolve(cwd, filePath)]
    ensures r.Err? ==> r.error.PlainError? && StartsWith(r.error.message, "Error reading file " + filePath + ": ")
  {
    match ReadFile(d, Resolve(cwd, filePath))
    case Ok(text) => Ok(text)
    case Err(e) => Err(PlainError("Error reading file " + filePath + ": " + e.message))
  }

  /** `fs.stat`: succeeds for any existing file or directory. */
  function GetFileStats(cwd: Path, d: Disk, filePath: string): (r: Result<(), Thrown>)
    ensures r.Ok? <==> Accessible(d, Resolve(cwd, filePath))
  {
    if Accessible(d, Resolve(cwd, filePath)) then Ok(())
    else Err(PlainError("ENOENT: no such file or directory, stat '" + filePath + "'"))
  }

  /** `getRelativePath(base, f)`: `f` relative to the directory of `base`. */
  function GetRelativePath(cwd: Path, basePath: string, filePath: string): string {
    Relative(Dirname(Resolve(cwd, basePath)), Resolve(cwd, filePath))
  }

  /** A path relative to its own directory is its base name. */
  lemma RelativeToSelf(cwd: Path, m: Path)
    requires Clean(m)
    ensures GetRelativePath(cwd, Render(m), Render(m)) == Basename(m)
  {
    ResolveRender(cwd, m);
    if |m| >= 1 {
      assert m == Dirname(m) + [Basename(m)];
      RelativeBelow(Dirname(m), [Basename(m)]);
    }
  }

  /** Joining a normalised relative path to the manifest's directory and
      taking it relative to the manifest gives the path back. */
  lemma RelativeOfJoin(cwd: Path, m: Path, r: string)
    requires Clean(m) && NormalisedRelative(r)
    ensures GetRelativePath(cwd, Render(m), Render(JoinPath(Dirname(m), r))) == r
  {
    var rs := Split(r, '/');
    FoldClean(Dirname(m), rs);
    ResolveRender(cwd, m);
    ResolveRender(cwd, Dirname(m) + rs);
    RelativeBelow(Dirname(m), rs);
    JoinSplit(r, '/');
  }
}
