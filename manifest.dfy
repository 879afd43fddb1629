/** The push engine's reading of a source's `manifest.json` (upload-source
    `ManifestService`). A manifest entry `{ filePath }` is modelled by its
    `filePath`. */
module ManifestService {
  import opened Wrappers
  import opened Strings
  import opened Paths
  import opened LocalDisk
  import opened PathMapper
  import opened UploadFileSystem

  /** What `readManifest` returns when the manifest cannot be read or parsed. */
  const DefaultManifest: ManifestJson := ManifestJson(Some(""), Some("1.0.0"), Some([]), None)

  /** The entries of a manifest whose `files` field has been filled in. */
  function Entries(m: ManifestJson): seq<string> {
    m.files.GetOr([])
  }

  /** `readManifest`: the parsed manifest with a missing `files` list
      replaced by `[]`; the default manifest when reading or parsing fails. */
  function ReadManifest(cwd: Path, d: Disk, parse: Parser, manifestPath: string): (m: ManifestJson)
    ensures m.files.Some?
    ensures ReadFileContent(cwd, d, manifestPath).Err? ==> m == DefaultManifest
    ensures ReadFileContent(cwd, d, manifestPath).Ok? && parse(ReadFileContent(cwd, d, manifestPath).value).None? ==>
              m == DefaultManifest
    ensures ReadFileContent(cwd, d, manifestPath).Ok? && parse(ReadFileContent(cwd, d, manifestPath).value).Some? ==>
              var parsed := parse(ReadFileContent(cwd, d, manifestPath).value).value;
              m.name == parsed.name && m.version == parsed.version && m.sourceType == parsed.sourceType &&
              (parsed.files.Some? ==> m.files == parsed.files) &&
              (parsed.files.None? ==> Entries(m) == [])
  {
    match ReadFileContent(cwd, d, manifestPath)
    case Err(_) => DefaultManifest
    case Ok(text) =>
      match parse(text)
      case None => DefaultManifest
      case Some(parsed) =>
        if parsed.files.None? then parsed.(files := Some([])) else parsed
  }

  /** The relative paths of `files` with respect to the manifest's directory. */
  function RelativePaths(cwd: Path, manifestPath: string, files: seq<string>): (rels: seq<string>)
    ensures |rels| == |files|
    ensures forall i :: 0 <= i < |files| ==> rels[i] == GetRelativePath(cwd, manifestPath, files[i])
  {
    seq(|files|, i requires 0 <= i < |files| => GetRelativePath(cwd, manifestPath, files[i]))
  }

  /** `updateManifest`: the reread manifest renamed to `sourceName`, with
      one entry appended per new file. The result is never written back. */
  function UpdateManifest(cwd: Path, d: Disk, parse: Parser, manifestPath: string,
                          newFiles: seq<string>, sourceName: string): (m: ManifestJson)
    ensures m.name == Some(sourceName)
    ensures m.version == ReadManifest(cwd, d, parse, manifestPath).version
    ensures Entries(m) == Entries(ReadManifest(cwd, d, parse, manifestPath)) + RelativePaths(cwd, manifestPath, newFiles)
  {
    var read := ReadManifest(cwd, d, parse, manifestPath).(name := Some(sourceName));
    if |newFiles| > 0 then read.(files := Some(Entries(read) + RelativePaths(cwd, manifestPath, newFiles)))
    else
      assert RelativePaths(cwd, manifestPath, newFiles) == [];
      read
  }

  /** `isManifestFile`: textual equality of the two path strings. */
  predicate IsManifestFile(filePath: string, manifestPath: string) {
    filePath == manifestPath
  }

  /** Two spellings of the same file are not the same manifest file: the
      comparison is on text, not on the file named. */
  lemma IsManifestFileIsTextual(cwd: Path, m: Path)
    requires Clean(m) && |m| >= 1
    ensures Resolve(cwd, "/" + Render(m)) == Resolve(cwd, Render(m))
    ensures !IsManifestFile("/" + Render(m), Render(m))
  {
    assert "/" + Render(m) == [] + ['/'] + Render(m);
    SplitConcatSep([], Render(m), '/');
    RenderSplit(m);
    ResolveRender(cwd, m);
    assert Split("/" + Render(m), '/') == [""] + ([""] + m);
    FoldClean([], m);
    assert Fold([], [""] + ([""] + m)) == Fold([], [""] + m) == Fold([], m);
    assert |"/" + Render(m)| != |Render(m)|;
  }

  /** `getNewFiles`: the files whose relative path no manifest entry
      records, in their original order. */
  function GetNewFiles(cwd: Path, validFiles: seq<string>, manifest: ManifestJson, manifestPath: string): (r: seq<string>)
    ensures |r| <= |validFiles|
    decreases |validFiles|
  {
    if validFiles == [] then []
    else
      var rest := GetNewFiles(cwd, validFiles[1..], manifest, manifestPath);
      if GetRelativePath(cwd, manifestPath, validFiles[0]) in Entries(manifest) then rest
      else [validFiles[0]] + rest
  }

  /** A file is new exactly when it is one of the valid files and no entry
      records its relative path. */
  lemma {:induction false} GetNewFilesMembers(cwd: Path, validFiles: seq<string>, manifest: ManifestJson,
                                              manifestPath: string, f: string)
    ensures f in GetNewFiles(cwd, validFiles, manifest, manifestPath) <==>
            f in validFiles && GetRelativePath(cwd, manifestPath, f) !in Entries(manifest)
    decreases |validFiles|
  {
    if validFiles != [] {
      GetNewFilesMembers(cwd, validFiles[1..], manifest, manifestPath, f);
      assert f in validFiles <==> f == validFiles[0] || f in validFiles[1..];
    }
  }

  /** Filtering keeps order: the new files of a concatenation are the new
      files of each part, one after the other. */
  lemma {:induction false} GetNewFilesAppend(cwd: Path, a: seq<string>, b: seq<string>, manifest: ManifestJson, manifestPath: string)
    ensures GetNewFiles(cwd, a + b, manifest, manifestPath) ==
            GetNewFiles(cwd, a, manifest, manifestPath) + GetNewFiles(cwd, b, manifest, manifestPath)
    decreases |a|
  {
    if a == [] {
      assert a + b == b;
    } else {
      var first := if GetRelativePath(cwd, manifestPath, a[0]) in Entries(manifest) then [] else [a[0]];
      assert (a + b)[0] == a[0] && (a + b)[1..] == a[1..] + b;
      assert GetNewFiles(cwd, a + b, manifest, manifestPath) == first + GetNewFiles(cwd, a[1..] + b, manifest, manifestPath);
      assert GetNewFiles(cwd, a, manifest, manifestPath) == first + GetNewFiles(cwd, a[1..], manifest, manifestPath);
      GetNewFilesAppend(cwd, a[1..], b, manifest, manifestPath);
      SeqAssoc(first, GetNewFiles(cwd, a[1..], manifest, manifestPath), GetNewFiles(cwd, b, manifest, manifestPath));
    }
  }

  lemma SeqAssoc<T>(x: seq<T>, y: seq<T>, z: seq<T>)
    ensures x + (y + z) == (x + y) + z
  {
  }

  /** No file is new when the manifest records every relative path. */
  lemma {:induction false} AllTrackedNoNewFiles(cwd: Path, files: seq<string>, manifest: ManifestJson, manifestPath: string)
    requires forall i :: 0 <= i < |files| ==> GetRelativePath(cwd, manifestPath, files[i]) in Entries(manifest)
    ensures GetNewFiles(cwd, files, manifest, manifestPath) == []
    decreases |files|
  {
    if files != [] {
      assert GetRelativePath(cwd, manifestPath, files[0]) in Entries(manifest);
      AllTrackedNoNewFiles(cwd, files[1..], manifest, manifestPath);
    }
  }

  /** Once `updateManifest` has recorded the new files, none of them is new. */
  lemma UpdatedManifestHasNoNewFiles(cwd: Path, d: Disk, parse: Parser, manifestPath: string,
                                     newFiles: seq<string>, sourceName: string)
    ensures GetNewFiles(cwd, newFiles, UpdateManifest(cwd, d, parse, manifestPath, newFiles, sourceName), manifestPath) == []
  {
    var m := UpdateManifest(cwd, d, parse, manifestPath, newFiles, sourceName);
    TrackedAfterAppend(cwd, manifestPath, newFiles, m, Entries(ReadManifest(cwd, d, parse, manifestPath)));
  }

  /** A manifest whose entries end with the relative paths of `files`
      leaves none of them new. */
  lemma TrackedAfterAppend(cwd: Path, manifestPath: string, files: seq<string>, m: ManifestJson, before: seq<string>)
    requires Entries(m) == before + RelativePaths(cwd, manifestPath, files)
    ensures GetNewFiles(cwd, files, m, manifestPath) == []
  {
    var rels := RelativePaths(cwd, manifestPath, files);
    forall i | 0 <= i < |files| ensures GetRelativePath(cwd, manifestPath, files[i]) in Entries(m) {
      assert (before + rels)[|before| + i] == rels[i];
    }
    AllTrackedNoNewFiles(cwd, files, m, manifestPath);
  }
}
