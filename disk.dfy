/** The server's local file system as the engines see it through
    `fs/promises`: regular files with their text, and directories. */
module LocalDisk {
  import opened Wrappers
  import opened Paths

  /** `readOnly` holds the paths a write is refused for (permissions). */
  datatype Disk = Disk(files: map<Path, string>, dirs: set<Path>, readOnly: set<Path>)

  /** `fs.access` succeeds. */
  predicate Accessible(d: Disk, p: Path) {
    p in d.files || p in d.dirs
  }

  /** A file system tree: the parent directories of every file and every
      directory exist, and nothing is both a file and a directory. */
  predicate WellFormed(d: Disk) {
    (forall q, k :: q in d.files && 0 <= k < |q| ==> q[..k] in d.dirs) &&
    (forall e, k :: e in d.dirs && 0 <= k <= |e| ==> e[..k] in d.dirs) &&
    (forall e :: e in d.dirs ==> e !in d.files)
  }

  function Prefixes(p: Path): (r: set<Path>)
    ensures forall k :: 0 <= k <= |p| ==> p[..k] in r
    ensures forall q :: q in r ==> |q| <= |p| && q == p[..|q|]
  {
    set k | 0 <= k <= |p| :: p[..k]
  }

  /** Some component of `dir`, or `dir` itself, is a regular file. */
  predicate MkdirBlocked(d: Disk, dir: Path) {
    exists k :: 0 <= k <= |dir| && dir[..k] in d.files
  }

  /** `fs.mkdir(dir, { recursive: true })`. */
  function Mkdir(d: Disk, dir: Path): (r: Result<Disk, Thrown>)
    ensures r.Err? <==> MkdirBlocked(d, dir)
    ensures r.Ok? ==> r.value.files == d.files && r.value.readOnly == d.readOnly
    ensures r.Ok? ==> d.dirs <= r.value.dirs && dir in r.value.dirs
  {
    if MkdirBlocked(d, dir) then Err(PlainError("ENOTDIR: a component of the path is a file"))
    else
      assert dir[..|dir|] == dir;
      Ok(d.(dirs := d.dirs + Prefixes(dir)))
  }

  /** `fs.readFile(p, 'utf-8')`. */
  function ReadFile(d: Disk, p: Path): (r: Result<string, Thrown>)
    ensures r.Ok? <==> p in d.files
    ensures r.Ok? ==> r.value == d.files[p]
  {
    if p in d.files then Ok(d.files[p])
    else if p in d.dirs then Err(PlainError("EISDIR: illegal operation on a directory"))
    else Err(PlainError("ENOENT: no such file or directory"))
  }

  /** `fs.writeFile(p, content, 'utf-8')`: creates or replaces a regular
      file whose parent directory exists. */
  function WriteFile(d: Disk, p: Path, content: string): (r: Result<Disk, Thrown>)
    ensures r.Ok? <==> p !in d.dirs && p !in d.readOnly && Dirname(p) in d.dirs
    ensures r.Ok? ==> r.value == d.(files := d.files[p := content])
  {
    if p in d.dirs then Err(PlainError("EISDIR: illegal operation on a directory"))
    else if Dirname(p) !in d.dirs then Err(PlainError("ENOENT: no such file or directory"))
    else if p in d.readOnly then Err(PlainError("EACCES: permission denied"))
    else Ok(d.(files := d.files[p := content]))
  }

  lemma MkdirKeepsWellFormed(d: Disk, dir: Path)
    requires WellFormed(d) && Mkdir(d, dir).Ok?
    ensures WellFormed(Mkdir(d, dir).value)
  {
    var d' := Mkdir(d, dir).value;
    forall e, k | e in d'.dirs && 0 <= k <= |e| ensures e[..k] in d'.dirs {
      if e !in d.dirs {
        assert e == dir[..|e|];
        assert e[..k] == dir[..k];
      }
    }
    forall e | e in d'.dirs ensures e !in d'.files {
      if e !in d.dirs {
        assert e == dir[..|e|];
      }
    }
  }

  lemma WriteKeepsWellFormed(d: Disk, p: Path, content: string)
    requires WellFormed(d) && WriteFile(d, p, content).Ok?
    ensures WellFormed(WriteFile(d, p, content).value)
  {
    var d' := WriteFile(d, p, content).value;
    forall q, k | q in d'.files && 0 <= k < |q| ensures q[..k] in d'.dirs {
      if q == p {
        assert q[..k] == Dirname(p)[..k];
      }
    }
  }

  /** Once a directory exists on a tree, creating it again changes nothing. */
  lemma MkdirExisting(d: Disk, dir: Path)
    requires WellFormed(d) && dir in d.dirs
    ensures Mkdir(d, dir) == Ok(d)
  {
    assert !MkdirBlocked(d, dir) by {
      forall k | 0 <= k <= |dir| ensures dir[..k] !in d.files {
        assert dir[..k] in d.dirs;
      }
    }
    assert d.dirs + Prefixes(dir) == d.dirs;
  }
}
