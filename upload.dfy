/** The push engine (upload-source `UploadService`): every file the
    manifest lists is compared with the version-control service's copy and
    uploaded when it is new or differs, under the source's update flag. */
module UploadService {
  import opened Wrappers
  import opened Strings
  import opened Paths
  import opened LocalDisk
  import opened VersionTracking
  import opened PathMapper
  import opened UploadFileSystem
  import opened ManifestService

  /** What `getSourceInfo` answers. */
  datatype SourceInfo = SourceInfo(sourceName: string, filePaths: seq<string>)

  /** The body of one `uploadFile` request. */
  datatype FileUpload = FileUpload(filePath: string, content: string, sourceId: string, incrementType: Increment)

  /** The status marks the engine records: updated, new, skipped, failed. */
  datatype Mark = Updated | Added | Skipped | Failed

  datatype UploadStatus = UploadStatus(status: Mark, file: string)

  /** `VersionControlAPIResponse` as the push returns it. */
  datatype Response = Response(success: bool, message: string)

  /** The server the push runs on: its working directory, its disk and
      `JSON.parse`. */
  datatype Local = Local(cwd: Path, disk: Disk, parse: Parser)

  /** The version-control service for one source id: the source's info,
      the remote copy of a file by relative path, and the answer to an
      upload. A failed call is an `Err`. */
  datatype PushRemote = PushRemote(
    sourceInfo: Result<SourceInfo, Thrown>,
    fetch: string -> Result<string, Thrown>,
    upload: FileUpload -> Result<(), Thrown>)

  const SourceNotFound: Thrown := HttpError(404, "Source not found")
  const NoFilesFound: string := "No files found in source directory"
  const UploadFailed: Thrown := HttpError(500, "Error uploading files to remote location")

  /** The `catch` of `uploadChangedFiles`: HTTP errors pass, any other
      becomes a 500. */
  function Wrap(e: Thrown): (w: Thrown)
    ensures w.HttpError?
    ensures e.HttpError? ==> w == e
    ensures !e.HttpError? ==> w == UploadFailed
  {
    if e.HttpError? then e else UploadFailed
  }

  /** `Map.get`. */
  function Lookup(m: map<string, string>, k: string): (r: Option<string>)
    ensures r.Some? <==> k in m
    ensures r.Some? ==> r.value == m[k]
  {
    if k in m then Some(m[k]) else None
  }

  function OptSeq<T>(o: Option<T>): seq<T> {
    if o.Some? then [o.value] else []
  }

  // ---------------------------------------------------------------------
  // prepareUpload

  datatype Prepared = Prepared(records: Records, result: Result<(string, string), Thrown>)

  /** `prepareUpload`: check the flag, set it, look the source up and find
      its manifest. The result pairs the manifest path with the source name. */
  function PrepareUpload(records: Records, local: Local, remote: PushRemote, sourceId: string): (p: Prepared)
    ensures InProgress(records, sourceId) ==>
              p.records == records && p.result == Err(HttpError(409, AlreadyInProgress))
    ensures !InProgress(records, sourceId) ==>
              p.records == records[sourceId := WithFlag(records, sourceId, true)] && InProgress(p.records, sourceId)
    ensures !InProgress(records, sourceId) && remote.sourceInfo.Ok? && remote.sourceInfo.value.sourceName == "" ==>
              p.result == Err(SourceNotFound)
    ensures p.result.Ok? <==>
              !InProgress(records, sourceId) && remote.sourceInfo.Ok? && remote.sourceInfo.value.sourceName != "" &&
              GetManifestPath(local.cwd, local.disk, remote.sourceInfo.value.sourceName).Ok?
    ensures p.result.Ok? ==>
              p.result.value == (Render(GetManifestPath(local.cwd, local.disk, remote.sourceInfo.value.sourceName).value),
                                 remote.sourceInfo.value.sourceName)
  {
    if InProgress(records, sourceId) then Prepared(records, Err(HttpError(409, AlreadyInProgress)))
    else
      var held := records[sourceId := WithFlag(records, sourceId, true)];
      match remote.sourceInfo
      case Err(e) => Prepared(held, Err(e))
      case Ok(info) =>
        if info.sourceName == "" then Prepared(held, Err(SourceNotFound))
        else
          match GetManifestPath(local.cwd, local.disk, info.sourceName)
          case Err(e) => Prepared(held, Err(e))
          case Ok(mp) => Prepared(held, Ok((Render(mp), info.sourceName)))
  }

  /** A manifest path the sync engine resolves is a normalised path naming
      a file, never the root, when the working directory is normalised. */
  lemma ManifestPathClean(cwd: Path, d: Disk, sourceName: string)
    requires Clean(cwd)
    requires GetManifestPath(cwd, d, sourceName).Ok?
    ensures Clean(GetManifestPath(cwd, d, sourceName).value)
    ensures |GetManifestPath(cwd, d, sourceName).value| >= 1
  {
    ManifestNameIsSegment(ManifestName);
    if Accessible(d, PluginManifestPath(cwd, sourceName)) {
      PluginManifestClean(cwd, sourceName);
    } else {
      assert GetManifestPath(cwd, d, sourceName).value == cwd + [ManifestName];
    }
  }

  lemma ManifestNameIsSegment(name: string)
    requires name == ManifestName
    ensures IsSegment(name)
  {
  }

  lemma PluginsBaseClean(cwd: Path, src: string, plugins: string)
    requires Clean(cwd) && src == "src" && plugins == "plugins"
    ensures Clean(cwd + [src, plugins])
  {
  }

  lemma PluginManifestClean(cwd: Path, sourceName: string)
    requires Clean(cwd)
    ensures Clean(PluginManifestPath(cwd, sourceName)) && |PluginManifestPath(cwd, sourceName)| >= 1
  {
    var base := cwd + ["src", "plugins"];
    var segs := Split(sourceName, '/');
    PluginsBaseClean(cwd, "src", "plugins");
    ManifestNameIsSegment(ManifestName);
    FoldAppend(base, segs, [ManifestName]);
    FoldClean(Fold(base, segs), [ManifestName]);
  }

  // ---------------------------------------------------------------------
  // getValidFiles

  /** `manifestPath.substring(0, manifestPath.lastIndexOf('/'))`. */
  function ManifestDirOf(manifestPath: string): string {
    Prefix(manifestPath, LastIndexOf(manifestPath, '/'))
  }

  /** The absolute path string built for one manifest entry. */
  function ValidFile(manifestPath: string, entry: string): string {
    Collapse(ManifestDirOf(manifestPath) + "/" + entry)
  }

  /** `getValidFiles`: one path per manifest entry, in manifest order. */
  function GetValidFiles(local: Local, manifestPath: string): (files: seq<string>)
    ensures |files| == |Entries(ReadManifest(local.cwd, local.disk, local.parse, manifestPath))|
  {
    var entries := Entries(ReadManifest(local.cwd, local.disk, local.parse, manifestPath));
    seq(|entries|, i requires 0 <= i < |entries| => ValidFile(manifestPath, entries[i]))
  }

  /** The text of a directory as `ManifestDirOf` cuts it: empty for the root. */
  function DirText(p: Path): string {
    if |p| == 0 then "" else Render(p)
  }

  lemma RenderSnoc(p: Path, last: string)
    ensures Render(p + [last]) == DirText(p) + "/" + last
  {
    if |p| == 0 {
      assert p + [last] == [last];
    } else {
      JoinSnoc(p, last, '/');
    }
  }

  lemma ManifestDirOfRender(m: Path)
    requires Clean(m) && |m| >= 1
    ensures ManifestDirOf(Render(m)) == DirText(Dirname(m))
  {
    var x := DirText(Dirname(m));
    var last := m[|m| - 1];
    assert m == Dirname(m) + [last];
    RenderSnoc(Dirname(m), last);
    assert Render(m) == x + ['/'] + last;
    LastIndexOfAfter(x, last, '/');
    assert Render(m)[..|x|] == x;
  }

  lemma SplitDirText(p: Path, e: string)
    requires Clean(p)
    ensures Split(DirText(p) + "/" + e, '/') == [""] + p + Split(e, '/')
  {
    SplitConcatSep(DirText(p), e, '/');
    if |p| >= 1 {
      RenderSplit(p);
    }
  }

  /** The path built for a manifest entry names the file that joining the
      entry to the manifest's directory names: the file the sync engine
      writes for that entry in a plugin or admin source. */
  lemma ValidFileResolves(cwd: Path, m: Path, e: string)
    requires Clean(m) && |m| >= 1
    ensures Resolve(cwd, ValidFile(Render(m), e)) == JoinPath(Dirname(m), e)
  {
    ResolveValidFile(cwd, m, e);
    FoldDirText(Dirname(m), e);
  }

  /** The built string is absolute, so it resolves from the root. */
  lemma ResolveValidFile(cwd: Path, m: Path, e: string)
    requires Clean(m) && |m| >= 1
    ensures Resolve(cwd, ValidFile(Render(m), e)) == Fold([], Split(DirText(Dirname(m)) + "/" + e, '/'))
  {
    var s := DirText(Dirname(m)) + "/" + e;
    ManifestDirOfRender(m);
    assert ValidFile(Render(m), e) == Collapse(s);
    ResolveCollapse(cwd, s);
    DirTextSlash(Dirname(m), e);
    ResolveAbsolute(cwd, s);
  }

  /** Folding the directory's text and the entry from the root lands where
      joining the entry to the directory does. */
  lemma FoldDirText(p: Path, e: string)
    requires Clean(p)
    ensures Fold([], Split(DirText(p) + "/" + e, '/')) == Fold(p, Split(e, '/'))
  {
    var tail := Split(e, '/');
    var b := p + tail;
    SplitDirText(p, e);
    ConsAssoc("", p, tail);
    calc {
      Fold([], Split(DirText(p) + "/" + e, '/'));
      Fold([], [""] + b);
      { FoldSkipEmpty(b); }
      Fold([], b);
      { FoldAppend([], p, tail); }
      Fold(Fold([], p), tail);
      { FoldClean([], p); EmptyPrefix(p); }
      Fold(p, tail);
    }
  }

  lemma ConsAssoc(x: string, p: seq<string>, q: seq<string>)
    ensures [x] + p + q == [x] + (p + q)
  {
  }

  lemma EmptyPrefix(p: seq<string>)
    ensures [] + p == p
  {
  }

  lemma DirTextSlash(p: Path, e: string)
    ensures var s := DirText(p) + "/" + e;
            |s| >= 1 && s[0] == '/'
  {
    if |p| > 0 {
      assert Render(p)[0] == '/';
    }
  }

  lemma ResolveAbsolute(cwd: Path, s: string)
    requires |s| >= 1 && s[0] == '/'
    ensures Resolve(cwd, s) == Fold([], Split(s, '/'))
  {
    assert StartsWith(s, "/");
  }

  lemma FoldSkipEmpty(x: seq<string>)
    ensures Fold([], [""] + x) == Fold([], x)
  {
    assert ([""] + x)[0] == "" && ([""] + x)[1..] == x;
  }

  /** The same file, through the sync engine's `mapFilePath`. */
  lemma ValidFileIsMappedFile(cwd: Path, d: Disk, parse: Parser, m: Path, e: string, sourceName: string)
    requires Clean(m) && |m| >= 1
    requires ReadSourceType(d, parse, m).Ok? && ReadSourceType(d, parse, m).value != "node-api"
    ensures MapFilePath(cwd, d, parse, e, sourceName, m) == Ok(Resolve(cwd, ValidFile(Render(m), e)))
  {
    ValidFileResolves(cwd, m, e);
  }

  /** For an entry already in normalised relative form, the relative path
      of its valid file is the entry itself. */
  lemma RelativeOfValidFile(cwd: Path, m: Path, e: string)
    requires Clean(m) && |m| >= 1 && NormalisedRelative(e)
    ensures GetRelativePath(cwd, Render(m), ValidFile(Render(m), e)) == e
  {
    ValidFileResolves(cwd, m, e);
    ResolveRender(cwd, m);
    FoldClean(Dirname(m), Split(e, '/'));
    RelativeBelow(Dirname(m), Split(e, '/'));
    JoinSplit(e, '/');
  }

  /** When every entry is normalised, `getNewFiles` finds nothing: the
      increment of every upload is a patch. */
  lemma NormalisedManifestHasNoNewFiles(local: Local, m: Path)
    requires Clean(m) && |m| >= 1
    requires var es := Entries(ReadManifest(local.cwd, local.disk, local.parse, Render(m)));
             forall i :: 0 <= i < |es| ==> NormalisedRelative(es[i])
    ensures GetNewFiles(local.cwd, GetValidFiles(local, Render(m)),
                        ReadManifest(local.cwd, local.disk, local.parse, Render(m)), Render(m)) == []
  {
    var manifest := ReadManifest(local.cwd, local.disk, local.parse, Render(m));
    var es := Entries(manifest);
    var valid := GetValidFiles(local, Render(m));
    forall i | 0 <= i < |valid| ensures GetRelativePath(local.cwd, Render(m), valid[i]) in es {
      RelativeOfValidFile(local.cwd, m, es[i]);
    }
    AllTrackedNoNewFiles(local.cwd, valid, manifest, Render(m));
  }

  /** An entry that is not normalised is its own new file: "./a.ts" is
      listed, but its relative path "a.ts" is not an entry. */
  lemma DotEntryIsNew(cwd: Path, m: Path)
    requires Clean(m) && |m| >= 1
    ensures GetRelativePath(cwd, Render(m), ValidFile(Render(m), "./a.ts")) == "a.ts"
  {
    assert "./a.ts" == "." + ['/'] + "a.ts";
    SplitConcatSep(".", "a.ts", '/');
    SplitNoSep(".", '/');
    SplitNoSep("a.ts", '/');
    assert JoinPath(Dirname(m), "./a.ts") == Fold(Dirname(m), ["a.ts"]);
    FoldClean(Dirname(m), ["a.ts"]);
    ValidFileResolves(cwd, m, "./a.ts");
    ResolveRender(cwd, m);
    RelativeBelow(Dirname(m), ["a.ts"]);
  }

  // ---------------------------------------------------------------------
  // buildRemoteContentsMap

  /** The map built from the remote copies of `rels`, in order: a failed
      fetch leaves its path out. */
  function RemoteContents(fetch: string -> Result<string, Thrown>, rels: seq<string>): (r: map<string, string>)
    ensures forall k :: k in r <==> k in rels && fetch(k).Ok?
    ensures forall k :: k in r ==> r[k] == fetch(k).value
    decreases |rels|
  {
    if rels == [] then map[]
    else
      var before := RemoteContents(fetch, rels[..|rels| - 1]);
      var k := rels[|rels| - 1];
      assert rels == rels[..|rels| - 1] + [k];
      match fetch(k)
      case Ok(content) => before[k := content]
      case Err(_) => before
  }

  lemma RemoteContentsSnoc(fetch: string -> Result<string, Thrown>, rels: seq<string>, k: string)
    ensures RemoteContents(fetch, rels + [k]) ==
            if fetch(k).Ok? then RemoteContents(fetch, rels)[k := fetch(k).value] else RemoteContents(fetch, rels)
  {
    assert (rels + [k])[..|rels|] == rels;
  }

  lemma RelativePathsSnoc(cwd: Path, manifestPath: string, files: seq<string>, i: nat)
    requires i < |files|
    ensures RelativePaths(cwd, manifestPath, files[..i + 1]) ==
            RelativePaths(cwd, manifestPath, files[..i]) + [GetRelativePath(cwd, manifestPath, files[i])]
  {
    var a := RelativePaths(cwd, manifestPath, files[..i + 1]);
    var b := RelativePaths(cwd, manifestPath, files[..i]);
    forall j | 0 <= j < i ensures a[j] == b[j] {
      assert files[..i + 1][j] == files[..i][j];
    }
    assert files[..i + 1][i] == files[i];
    SnocEq(a, b, GetRelativePath(cwd, manifestPath, files[i]));
  }

  lemma SnocEq(a: seq<string>, b: seq<string>, c: string)
    requires |a| == |b| + 1 && a[|b|] == c
    requires forall j :: 0 <= j < |b| ==> a[j] == b[j]
    ensures a == b + [c]
  {
  }

  /** `buildRemoteContentsMap`. */
  method BuildRemoteContentsMap(cwd: Path, fetch: string -> Result<string, Thrown>, validFiles: seq<string>,
                                manifestPath: string) returns (remote: map<string, string>)
    ensures remote == RemoteContents(fetch, RelativePaths(cwd, manifestPath, validFiles))
  {
    remote := map[];
    var i := 0;
    while i < |validFiles|
      invariant 0 <= i <= |validFiles|
      invariant remote == RemoteContents(fetch, RelativePaths(cwd, manifestPath, validFiles[..i]))
    {
      var relativePath := GetRelativePath(cwd, manifestPath, validFiles[i]);
      RelativePathsSnoc(cwd, manifestPath, validFiles, i);
      RemoteContentsSnoc(fetch, RelativePaths(cwd, manifestPath, validFiles[..i]), relativePath);
      var remoteContent := fetch(relativePath);
      if remoteContent.Ok? {
        remote := remote[relativePath := remoteContent.value];
      }
      i := i + 1;
    }
    assert validFiles[..|validFiles|] == validFiles;
  }

  // ---------------------------------------------------------------------
  // The upload set

  predicate Distinct<T(==)>(s: seq<T>) {
    forall i, j :: 0 <= i < j < |s| ==> s[i] != s[j]
  }

  /** `Array.from(new Set(s))`: first occurrences, in order. */
  function Dedup<T(==,!new)>(s: seq<T>): (r: seq<T>)
    ensures forall x :: x in r <==> x in s
    ensures Distinct(r)
    ensures |r| <= |s|
    decreases |s|
  {
    if s == [] then []
    else
      var before := Dedup(s[..|s| - 1]);
      var x := s[|s| - 1];
      assert s == s[..|s| - 1] + [x];
      if x in before then before else before + [x]
  }

  /** A list without repetitions is its own de-duplication. */
  lemma {:induction false} DedupDistinct<T(!new)>(s: seq<T>)
    requires Distinct(s)
    ensures Dedup(s) == s
    decreases |s|
  {
    if s != [] {
      var init := s[..|s| - 1];
      DedupDistinct(init);
      assert s[|s| - 1] !in init;
      assert init + [s[|s| - 1]] == s;
    }
  }

  /** The files `uploadChangedFiles` hands to `uploadFiles`: the distinct
      valid files, then the manifest when its text differs from the remote
      copy and it is not listed already. */
  function AllFiles(validFiles: seq<string>, manifestPath: string, current: string,
                    remoteManifest: Option<string>): (all: seq<string>)
    ensures forall f :: f in all <==> f in validFiles || (f == manifestPath && remoteManifest != Some(current))
    ensures Distinct(all)
    ensures |Dedup(validFiles)| <= |all| && all[..|Dedup(validFiles)|] == Dedup(validFiles)
  {
    var distinct := Dedup(validFiles);
    if remoteManifest != Some(current) && manifestPath !in distinct then distinct + [manifestPath]
    else distinct
  }

  /** The `getFileStats` of every file, awaited together: the first failure
      in list order. */
  function StatAll(local: Local, files: seq<string>): (r: Result<(), Thrown>)
    ensures r.Ok? <==> forall i :: 0 <= i < |files| ==> Accessible(local.disk, Resolve(local.cwd, files[i]))
    decreases |files|
  {
    if files == [] then Ok(())
    else
      match GetFileStats(local.cwd, local.disk, files[0])
      case Err(e) => Err(e)
      case Ok(_) =>
        assert forall i :: 1 <= i < |files| ==> files[1..][i - 1] == files[i];
        StatAll(local, files[1..])
  }

  // ---------------------------------------------------------------------
  // uploadFiles

  /** What every per-file task of `uploadFiles` shares. */
  datatype UploadCtx = UploadCtx(
    local: Local, manifestPath: string, sourceId: string,
    remoteContents: map<string, string>, newFiles: seq<string>,
    upload: FileUpload -> Result<(), Thrown>)

  /** One file's task: the status it records, the upload it sends and the
      error it throws. */
  datatype Attempt = Attempt(status: Option<UploadStatus>, sent: Option<FileUpload>, error: Option<Thrown>)

  /** The file can be `stat`ed and read. */
  predicate Readable(ctx: UploadCtx, f: string) {
    GetFileStats(ctx.local.cwd, ctx.local.disk, f).Ok? && ReadFileContent(ctx.local.cwd, ctx.local.disk, f).Ok?
  }

  function Rel(ctx: UploadCtx, f: string): string {
    GetRelativePath(ctx.local.cwd, ctx.manifestPath, f)
  }

  /** A non-manifest file the manifest does not record. */
  predicate IsNew(ctx: UploadCtx, f: string) {
    !IsManifestFile(f, ctx.manifestPath) && f in ctx.newFiles
  }

  /** The file must be sent: it is new, or the remote copy is missing or
      differs from the local text. */
  predicate Needed(ctx: UploadCtx, f: string)
    requires Readable(ctx, f)
  {
    IsNew(ctx, f) ||
    Lookup(ctx.remoteContents, Rel(ctx, f)) != Some(ReadFileContent(ctx.local.cwd, ctx.local.disk, f).value)
  }

  /** The upload job `uploadFiles` runs for one file. */
  function UploadOne(ctx: UploadCtx, f: string): Attempt
  {
    var cwd := ctx.local.cwd;
    var d := ctx.local.disk;
    match GetFileStats(cwd, d, f)
    case Err(e) => Attempt(None, None, Some(e))
    case Ok(_) =>
      match ReadFileContent(cwd, d, f)
      case Err(e) => Attempt(None, None, Some(e))
      case Ok(content) =>
        var rel := Rel(ctx, f);
        var remote := Lookup(ctx.remoteContents, rel);
        if IsManifestFile(f, ctx.manifestPath) then
          if remote != Some(content) then
            var u := FileUpload(rel, content, ctx.sourceId, Patch);
            match ctx.upload(u)
            case Ok(_) => Attempt(Some(UploadStatus(Updated, rel)), Some(u), None)
            case Err(e) => Attempt(None, Some(u), Some(e))
          else Attempt(Some(UploadStatus(Skipped, rel)), None, None)
        else
          var isNew := f in ctx.newFiles;
          if !isNew && remote == Some(content) then Attempt(Some(UploadStatus(Skipped, rel)), None, None)
          else
            var u := FileUpload(rel, content, ctx.sourceId, GenerateVersionIncrement(isNew));
            match ctx.upload(u)
            case Ok(_) => Attempt(Some(UploadStatus(if isNew then Added else Updated, rel)), Some(u), None)
            case Err(e) => Attempt(Some(UploadStatus(Failed, rel)), Some(u), Some(e))
  }

  /** What one task does: it sends exactly when the file is readable and
      new or different from its remote copy; the upload carries the file's
      relative path and text, as a minor increment exactly for a new file;
      it fails when the file cannot be read or the upload is refused; and
      the status it records says which of these happened. */
  lemma UploadOneSpec(ctx: UploadCtx, f: string)
    ensures var a := UploadOne(ctx, f);
            (a.sent.Some? <==> Readable(ctx, f) && Needed(ctx, f)) &&
            (a.sent.Some? ==>
               a.sent.value.filePath == Rel(ctx, f) && a.sent.value.sourceId == ctx.sourceId &&
               a.sent.value.content == ReadFileContent(ctx.local.cwd, ctx.local.disk, f).value &&
               (a.sent.value.incrementType == Minor <==> IsNew(ctx, f))) &&
            (a.error.Some? <==> !Readable(ctx, f) || (a.sent.Some? && ctx.upload(a.sent.value).Err?)) &&
            (a.status.Some? ==> a.status.value.file == Rel(ctx, f)) &&
            (a.status.Some? && a.status.value.status == Skipped <==> Readable(ctx, f) && !Needed(ctx, f)) &&
            (a.status.Some? && a.status.value.status == Added <==> a.sent.Some? && a.error.None? && IsNew(ctx, f)) &&
            (a.status.Some? && a.status.value.status == Failed <==>
               a.error.Some? && a.sent.Some? && !IsManifestFile(f, ctx.manifestPath)) &&
            (a.error.None? ==> a.status.Some?)
  {
  }

  /** One per-file task, step by step. */
  method UploadTask(ctx: UploadCtx, filePath: string)
    returns (status: Option<UploadStatus>, sent: Option<FileUpload>, error: Option<Thrown>)
    ensures Attempt(status, sent, error) == UploadOne(ctx, filePath)
  {
    status, sent, error := None, None, None;
    var stats := GetFileStats(ctx.local.cwd, ctx.local.disk, filePath);
    if stats.Err? {
      error := Some(stats.error);
      return;
    }
    var read := ReadFileContent(ctx.local.cwd, ctx.local.disk, filePath);
    if read.Err? {
      error := Some(read.error);
      return;
    }
    var content := read.value;
    var relativePath := GetRelativePath(ctx.local.cwd, ctx.manifestPath, filePath);
    if IsManifestFile(filePath, ctx.manifestPath) {
      var remoteContent := Lookup(ctx.remoteContents, relativePath);
      if remoteContent != Some(content) {
        var u := FileUpload(relativePath, content, ctx.sourceId, Patch);
        sent := Some(u);
        var answer := ctx.upload(u);
        if answer.Err? {
          error := Some(answer.error);
          return;
        }
        status := Some(UploadStatus(Updated, relativePath));
      } else {
        status := Some(UploadStatus(Skipped, relativePath));
      }
      return;
    }
    var isNewFile := filePath in ctx.newFiles;
    var remoteContent := Lookup(ctx.remoteContents, relativePath);
    if !isNewFile && remoteContent == Some(content) {
      status := Some(UploadStatus(Skipped, relativePath));
      return;
    }
    var u := FileUpload(relativePath, content, ctx.sourceId, GenerateVersionIncrement(isNewFile));
    sent := Some(u);
    var answer := ctx.upload(u);
    if answer.Ok? {
      status := Some(UploadStatus(if isNewFile then Added else Updated, relativePath));
    } else {
      status := Some(UploadStatus(Failed, relativePath));
      error := Some(answer.error);
    }
  }

  /** The upload jobs of all `files` together: the statuses recorded, the uploads
      sent and the first error in list order. Every task runs, whatever
      the others do. */
  datatype UploadRun = UploadRun(statuses: seq<UploadStatus>, sent: seq<FileUpload>, error: Option<Thrown>)

  /** The upload jobs' attempts, one per file, in list order. */
  function Attempts(ctx: UploadCtx, files: seq<string>): (attempts: seq<Attempt>)
    ensures |attempts| == |files|
    ensures forall i :: 0 <= i < |files| ==> attempts[i] == UploadOne(ctx, files[i])
  {
    seq(|files|, i requires 0 <= i < |files| => UploadOne(ctx, files[i]))
  }

  /** Collecting the attempts: statuses and uploads in order, and the
      first error. */
  function Combine(attempts: seq<Attempt>): UploadRun {
    if attempts == [] then UploadRun([], [], None)
    else
      var before := Combine(attempts[..|attempts| - 1]);
      var a := attempts[|attempts| - 1];
      UploadRun(before.statuses + OptSeq(a.status), before.sent + OptSeq(a.sent),
                if before.error.Some? then before.error else a.error)
  }

  function UploadFilesSpec(ctx: UploadCtx, files: seq<string>): UploadRun {
    Combine(Attempts(ctx, files))
  }

  lemma UploadFilesSnoc(ctx: UploadCtx, files: seq<string>, f: string)
    ensures var before := UploadFilesSpec(ctx, files);
            var a := UploadOne(ctx, f);
            UploadFilesSpec(ctx, files + [f]) ==
              UploadRun(before.statuses + OptSeq(a.status), before.sent + OptSeq(a.sent),
                        if before.error.Some? then before.error else a.error)
  {
    var xs := Attempts(ctx, files + [f]);
    forall i | 0 <= i < |files| ensures xs[i] == Attempts(ctx, files)[i] {
      assert (files + [f])[i] == files[i];
    }
    assert (files + [f])[|files|] == f;
    assert xs[..|files|] == Attempts(ctx, files);
  }

  lemma {:induction false} CombineFails(attempts: seq<Attempt>)
    ensures Combine(attempts).error.None? <==> forall i :: 0 <= i < |attempts| ==> attempts[i].error.None?
    decreases |attempts|
  {
    if attempts != [] {
      var init := attempts[..|attempts| - 1];
      CombineFails(init);
      assert forall i :: 0 <= i < |init| ==> init[i] == attempts[i];
    }
  }

  lemma {:induction false} CombineFirstError(attempts: seq<Attempt>)
    requires Combine(attempts).error.Some?
    ensures exists i :: 0 <= i < |attempts| && Combine(attempts).error == attempts[i].error &&
                        forall j :: 0 <= j < i ==> attempts[j].error.None?
    decreases |attempts|
  {
    var n := |attempts| - 1;
    var init := attempts[..n];
    assert forall j :: 0 <= j < n ==> init[j] == attempts[j];
    if Combine(init).error.Some? {
      CombineFirstError(init);
      var i :| 0 <= i < n && Combine(init).error == init[i].error &&
               forall j :: 0 <= j < i ==> init[j].error.None?;
      assert Combine(attempts).error == attempts[i].error;
    } else {
      CombineFails(init);
      assert Combine(attempts).error == attempts[n].error;
    }
  }

  /** An attempt without error that records a status did not fail. */
  predicate Consistent(a: Attempt) {
    a.error.None? && a.status.Some? ==> a.status.value.status != Failed
  }

  lemma {:induction false} CombineNoFailed(attempts: seq<Attempt>)
    requires forall i :: 0 <= i < |attempts| ==> Consistent(attempts[i])
    requires Combine(attempts).error.None?
    ensures var r := Combine(attempts);
            forall k :: 0 <= k < |r.statuses| ==> r.statuses[k].status != Failed
    decreases |attempts|
  {
    if attempts != [] {
      var init := attempts[..|attempts| - 1];
      assert forall i :: 0 <= i < |init| ==> init[i] == attempts[i];
      CombineNoFailed(init);
      assert Consistent(attempts[|attempts| - 1]);
    }
  }

  /** Some attempt sent the upload. */
  predicate SentBy(attempts: seq<Attempt>, u: FileUpload) {
    exists i :: 0 <= i < |attempts| && attempts[i].sent == Some(u)
  }

  lemma {:induction false} CombineSent(attempts: seq<Attempt>)
    ensures forall k :: 0 <= k < |Combine(attempts).sent| ==> SentBy(attempts, Combine(attempts).sent[k])
    decreases |attempts|
  {
    if attempts != [] {
      var n := |attempts| - 1;
      var init := attempts[..n];
      CombineSent(init);
      var before := Combine(init);
      var r := Combine(attempts);
      assert r.sent == before.sent + OptSeq(attempts[n].sent);
      forall k | 0 <= k < |r.sent| ensures SentBy(attempts, r.sent[k]) {
        if k < |before.sent| {
          assert r.sent[k] == before.sent[k];
          assert SentBy(init, before.sent[k]);
          var i :| 0 <= i < |init| && init[i].sent == Some(before.sent[k]);
          assert init[i] == attempts[i];
        } else {
          assert attempts[n].sent == Some(r.sent[k]);
        }
      }
    }
  }

  /** The run fails exactly when some task fails. */
  lemma UploadFilesFails(ctx: UploadCtx, files: seq<string>)
    ensures UploadFilesSpec(ctx, files).error.None? <==>
            forall i :: 0 <= i < |files| ==> UploadOne(ctx, files[i]).error.None?
  {
    CombineFails(Attempts(ctx, files));
  }

  /** A failed run answers with the error of the first failing task in
      list order. */
  lemma UploadFilesFirstError(ctx: UploadCtx, files: seq<string>)
    requires UploadFilesSpec(ctx, files).error.Some?
    ensures exists i :: 0 <= i < |files| && UploadFilesSpec(ctx, files).error == UploadOne(ctx, files[i]).error &&
                        forall j :: 0 <= j < i ==> UploadOne(ctx, files[j]).error.None?
  {
    var attempts := Attempts(ctx, files);
    CombineFirstError(attempts);
    var i :| 0 <= i < |attempts| && Combine(attempts).error == attempts[i].error &&
             forall j :: 0 <= j < i ==> attempts[j].error.None?;
    assert UploadFilesSpec(ctx, files).error == UploadOne(ctx, files[i]).error;
  }

  /** A run without error recorded no failed status. */
  lemma UploadFilesNoFailed(ctx: UploadCtx, files: seq<string>)
    requires UploadFilesSpec(ctx, files).error.None?
    ensures var r := UploadFilesSpec(ctx, files);
            forall k :: 0 <= k < |r.statuses| ==> r.statuses[k].status != Failed
  {
    var attempts := Attempts(ctx, files);
    forall i | 0 <= i < |attempts| ensures Consistent(attempts[i]) {
      UploadOneSpec(ctx, files[i]);
    }
    CombineNoFailed(attempts);
  }

  /** Every upload a run sends is the upload of one of its tasks. */
  lemma UploadFilesSent(ctx: UploadCtx, files: seq<string>)
    ensures var r := UploadFilesSpec(ctx, files);
            forall k :: 0 <= k < |r.sent| ==> exists i :: 0 <= i < |files| && UploadOne(ctx, files[i]).sent == Some(r.sent[k])
  {
    var attempts := Attempts(ctx, files);
    CombineSent(attempts);
    var r := Combine(attempts);
    forall k | 0 <= k < |r.sent| ensures exists i :: 0 <= i < |files| && UploadOne(ctx, files[i]).sent == Some(r.sent[k]) {
      assert SentBy(attempts, r.sent[k]);
      var i :| 0 <= i < |attempts| && attempts[i].sent == Some(r.sent[k]);
      SentByFile(ctx, files, attempts, i);
    }
  }

  lemma SentByFile(ctx: UploadCtx, files: seq<string>, attempts: seq<Attempt>, i: int)
    requires attempts == Attempts(ctx, files) && 0 <= i < |files|
    ensures UploadOne(ctx, files[i]) == attempts[i]
  {
  }

  /** The outcome `uploadFiles` returns. */
  function Outcome(run: UploadRun): Result<seq<UploadStatus>, Thrown> {
    if run.error.Some? then Err(run.error.value) else Ok(run.statuses)
  }

  /** `uploadFiles`, with the upload jobs `Promise.all` runs taken in list order. */
  method UploadFiles(ctx: UploadCtx, files: seq<string>) returns (r: Result<seq<UploadStatus>, Thrown>, sent: seq<FileUpload>)
    ensures r == Outcome(UploadFilesSpec(ctx, files))
    ensures sent == UploadFilesSpec(ctx, files).sent
  {
    var completedUploads: seq<UploadStatus> := [];
    var firstError: Option<Thrown> := None;
    sent := [];
    var i := 0;
    while i < |files|
      invariant 0 <= i <= |files|
      invariant UploadRun(completedUploads, sent, firstError) == UploadFilesSpec(ctx, files[..i])
    {
      var status, upload, error := UploadTask(ctx, files[i]);
      assert files[..i + 1] == files[..i] + [files[i]];
      UploadFilesSnoc(ctx, files[..i], files[i]);
      completedUploads := completedUploads + OptSeq(status);
      sent := sent + OptSeq(upload);
      if firstError.None? {
        firstError := error;
      }
      i := i + 1;
    }
    assert files[..|files|] == files;
    r := if firstError.Some? then Err(firstError.value) else Ok(completedUploads);
  }

  function CountFailed(statuses: seq<UploadStatus>): nat {
    |set k | 0 <= k < |statuses| && statuses[k].status == Failed|
  }

  // ---------------------------------------------------------------------
  // uploadChangedFiles

  /** What the push does once it holds the flag: the uploads it sends and
      how it ends, before the `catch` and the `finally`. */
  datatype Body = Body(sent: seq<FileUpload>, result: Result<Response, Thrown>)

  /** The shared state of the upload jobs a push runs: the remote copies of the
      valid files and the files the manifest does not record. */
  function BodyCtx(local: Local, remote: PushRemote, sourceId: string, manifestPath: string): UploadCtx {
    var validFiles := GetValidFiles(local, manifestPath);
    var remoteContents := RemoteContents(remote.fetch, RelativePaths(local.cwd, manifestPath, validFiles));
    var manifest := ReadManifest(local.cwd, local.disk, local.parse, manifestPath);
    var newFiles := GetNewFiles(local.cwd, validFiles, manifest, manifestPath);
    UploadCtx(local, manifestPath, sourceId, remoteContents, newFiles, remote.upload)
  }

  function UploadBody(local: Local, remote: PushRemote, sourceId: string, manifestPath: string): (b: Body)
    ensures b.result.Ok? ==> b.result.value.success
  {
    var validFiles := GetValidFiles(local, manifestPath);
    if |validFiles| == 0 then Body([], Ok(Response(true, NoFilesFound)))
    else
      var ctx := BodyCtx(local, remote, sourceId, manifestPath);
      match ReadFileContent(local.cwd, local.disk, manifestPath)
      case Err(e) => Body([], Err(e))
      case Ok(current) =>
        var remoteManifest := Lookup(ctx.remoteContents, GetRelativePath(local.cwd, manifestPath, manifestPath));
        var all := AllFiles(validFiles, manifestPath, current, remoteManifest);
        match StatAll(local, all)
        case Err(e) => Body([], Err(e))
        case Ok(_) => RunBody(ctx, all)
  }

  /** How the body ends once every file has been `stat`ed: the run's first
      error, the failed-count error, or the success message. */
  function RunBody(ctx: UploadCtx, all: seq<string>): (b: Body)
    ensures b.sent == UploadFilesSpec(ctx, all).sent
    ensures b.result.Ok? ==> b.result.value.success
  {
    var run := UploadFilesSpec(ctx, all);
    if run.error.Some? then Body(run.sent, Err(run.error.value))
    else if CountFailed(run.statuses) > 0 then
      Body(run.sent, Err(HttpError(500, "Failed to upload " + NatToString(CountFailed(run.statuses)) +
                                        " out of " + NatToString(|all|) + " files")))
    else Body(run.sent, Ok(Response(true, "Successfully processed " + NatToString(|all|) + " files")))
  }

  /** The records, the uploads sent and the answer of one push. */
  datatype Push = Push(records: Records, sent: seq<FileUpload>, result: Result<Response, Thrown>)

  /** `uploadChangedFiles`: prepare, run the body, turn a non-HTTP error
      into a 500, and clear the flag in every case. */
  function PushSpec(records: Records, local: Local, remote: PushRemote, sourceId: string): Push {
    var p := PrepareUpload(records, local, remote, sourceId);
    var body := match p.result
                case Err(e) => Body([], Err(e))
                case Ok(prepared) => UploadBody(local, remote, sourceId, prepared.0);
    Push(p.records[sourceId := WithFlag(p.records, sourceId, false)], body.sent,
         match body.result
         case Ok(response) => Ok(response)
         case Err(e) => Err(Wrap(e)))
  }

  /** `prepareUpload` against the tracking store. */
  method Prepare(store: TrackingStore, local: Local, remote: PushRemote, sourceId: string)
    returns (r: Result<(string, string), Thrown>)
    modifies store
    ensures Prepared(store.records, r) == PrepareUpload(old(store.records), local, remote, sourceId)
  {
    var check := store.CheckUpdateInProgress(sourceId);
    if check.Err? {
      return Err(check.error);
    }
    store.SetUpdateInProgress(sourceId, true);
    if remote.sourceInfo.Err? {
      return Err(remote.sourceInfo.error);
    }
    var sourceName := remote.sourceInfo.value.sourceName;
    if sourceName == "" {
      return Err(SourceNotFound);
    }
    var manifestPath := GetManifestPath(local.cwd, local.disk, sourceName);
    if manifestPath.Err? {
      return Err(manifestPath.error);
    }
    return Ok((Render(manifestPath.value), sourceName));
  }

  /** The body of `uploadChangedFiles` after `prepareUpload`. */
  method UploadPrepared(local: Local, remote: PushRemote, sourceId: string, manifestPath: string, sourceName: string)
    returns (sent: seq<FileUpload>, r: Result<Response, Thrown>)
    ensures Body(sent, r) == UploadBody(local, remote, sourceId, manifestPath)
  {
    sent := [];
    var validFiles := GetValidFiles(local, manifestPath);
    if |validFiles| == 0 {
      return [], Ok(Response(true, NoFilesFound));
    }
    var remoteContents := BuildRemoteContentsMap(local.cwd, remote.fetch, validFiles, manifestPath);
    var manifestContent := ReadManifest(local.cwd, local.disk, local.parse, manifestPath);
    var newFiles := GetNewFiles(local.cwd, validFiles, manifestContent, manifestPath);
    // The grown manifest is computed and dropped; nothing is written.
    var updated := UpdateManifest(local.cwd, local.disk, local.parse, manifestPath, newFiles, sourceName);
    var currentManifestContent := ReadFileContent(local.cwd, local.disk, manifestPath);
    if currentManifestContent.Err? {
      return [], Err(currentManifestContent.error);
    }
    var remoteManifestContent := Lookup(remoteContents, GetRelativePath(local.cwd, manifestPath, manifestPath));
    var allFiles := Dedup(validFiles);
    if remoteManifestContent != Some(currentManifestContent.value) {
      if manifestPath !in allFiles {
        allFiles := allFiles + [manifestPath];
      }
    }
    var stats := StatAll(local, allFiles);
    if stats.Err? {
      return [], Err(stats.error);
    }
    var ctx := UploadCtx(local, manifestPath, sourceId, remoteContents, newFiles, remote.upload);
    assert ctx == BodyCtx(local, remote, sourceId, manifestPath);
    sent, r := FinishUpload(ctx, allFiles);
  }

  /** The end of `uploadChangedFiles`'s body: run the upload jobs, then count
      the failures among their statuses. */
  method FinishUpload(ctx: UploadCtx, allFiles: seq<string>) returns (sent: seq<FileUpload>, r: Result<Response, Thrown>)
    ensures Body(sent, r) == RunBody(ctx, allFiles)
  {
    var completed;
    completed, sent := UploadFiles(ctx, allFiles);
    if completed.Err? {
      return sent, Err(completed.error);
    }
    var failedCount := CountFailed(completed.value);
    if failedCount > 0 {
      return sent, Err(HttpError(500, "Failed to upload " + NatToString(failedCount) + " out of " +
                                      NatToString(|allFiles|) + " files"));
    }
    r := Ok(Response(true, "Successfully processed " + NatToString(|allFiles|) + " files"));
  }

  /** `uploadChangedFiles` against the tracking store. */
  method UploadChangedFiles(store: TrackingStore, local: Local, remote: PushRemote, sourceId: string)
    returns (r: Result<Response, Thrown>, sent: seq<FileUpload>)
    modifies store
    ensures Push(store.records, sent, r) == PushSpec(old(store.records), local, remote, sourceId)
  {
    var prepared := Prepare(store, local, remote, sourceId);
    var result: Result<Response, Thrown>;
    if prepared.Err? {
      sent, result := [], Err(prepared.error);
    } else {
      sent, result := UploadPrepared(local, remote, sourceId, prepared.value.0, prepared.value.1);
    }
    if result.Err? {
      r := Err(Wrap(result.error));
    } else {
      r := result;
    }
    store.SetUpdateInProgress(sourceId, false);
  }

  // ---------------------------------------------------------------------
  // What a push guarantees

  /** Every push ends with the flag of its source cleared, every other
      record untouched and the source's version unchanged. */
  lemma PushReleasesFlag(records: Records, local: Local, remote: PushRemote, sourceId: string)
    ensures var after := PushSpec(records, local, remote, sourceId).records;
            !InProgress(after, sourceId) &&
            after.Keys == records.Keys + {sourceId} &&
            (forall id :: id in records && id != sourceId ==> after[id] == records[id]) &&
            (sourceId in records ==> after[sourceId] == records[sourceId].(isUpdateInProgress := false)) &&
            (sourceId !in records ==> after[sourceId] == TrackingRecord(None, false))
  {
  }

  /** A push refused because the flag is set sends nothing, answers 409,
      and still clears the flag that the other update holds. */
  lemma PushConflictClearsFlag(records: Records, local: Local, remote: PushRemote, sourceId: string)
    requires InProgress(records, sourceId)
    ensures PushSpec(records, local, remote, sourceId).result == Err(HttpError(409, AlreadyInProgress))
    ensures PushSpec(records, local, remote, sourceId).sent == []
    ensures !InProgress(PushSpec(records, local, remote, sourceId).records, sourceId)
  {
  }

  /** A source without a manifest on this server fails with the generic
      500: the "Manifest not found" message is not an HTTP error. */
  lemma PushMissingManifest(records: Records, local: Local, remote: PushRemote, sourceId: string)
    requires !InProgress(records, sourceId)
    requires remote.sourceInfo.Ok? && remote.sourceInfo.value.sourceName != ""
    requires GetManifestPath(local.cwd, local.disk, remote.sourceInfo.value.sourceName).Err?
    ensures PushSpec(records, local, remote, sourceId).result == Err(UploadFailed)
    ensures PushSpec(records, local, remote, sourceId).sent == []
  {
  }

  /** A manifest without entries ends the push successfully before any
      remote request or upload. */
  lemma PushEmptyManifest(records: Records, local: Local, remote: PushRemote, sourceId: string)
    requires PrepareUpload(records, local, remote, sourceId).result.Ok?
    requires var mp := PrepareUpload(records, local, remote, sourceId).result.value.0;
             Entries(ReadManifest(local.cwd, local.disk, local.parse, mp)) == []
    ensures PushSpec(records, local, remote, sourceId).result == Ok(Response(true, NoFilesFound))
    ensures PushSpec(records, local, remote, sourceId).sent == []
  {
  }

  /** A failed run answers with its first failing task's error, so the
      "Failed to upload N out of M files" answer is never produced. */
  lemma PushNeverCountsFailures(local: Local, remote: PushRemote, sourceId: string, manifestPath: string)
    ensures var b := UploadBody(local, remote, sourceId, manifestPath);
            b.result.Ok? ==> b.result.value.success
    ensures var validFiles := GetValidFiles(local, manifestPath);
            var remoteContents := RemoteContents(remote.fetch, RelativePaths(local.cwd, manifestPath, validFiles));
            var newFiles := GetNewFiles(local.cwd, validFiles, ReadManifest(local.cwd, local.disk, local.parse, manifestPath), manifestPath);
            forall files :: var run := UploadFilesSpec(UploadCtx(local, manifestPath, sourceId, remoteContents, newFiles, remote.upload), files);
                            run.error.None? ==> CountFailed(run.statuses) == 0
  {
    var ctx := BodyCtx(local, remote, sourceId, manifestPath);
    forall files ensures var run := UploadFilesSpec(ctx, files); run.error.None? ==> CountFailed(run.statuses) == 0 {
      RunCountsNoFailures(ctx, files);
    }
  }

  lemma RunCountsNoFailures(ctx: UploadCtx, files: seq<string>)
    ensures var run := UploadFilesSpec(ctx, files);
            run.error.None? ==> CountFailed(run.statuses) == 0
  {
    var run := UploadFilesSpec(ctx, files);
    if run.error.None? {
      UploadFilesNoFailed(ctx, files);
      assert (set k | 0 <= k < |run.statuses| && run.statuses[k].status == Failed) == {};
    }
  }

  /** A push sends nothing but the uploads of its tasks. */
  lemma BodySentByTasks(local: Local, remote: PushRemote, sourceId: string, manifestPath: string)
    ensures var sent := UploadBody(local, remote, sourceId, manifestPath).sent;
            sent == [] || exists files :: sent == UploadFilesSpec(BodyCtx(local, remote, sourceId, manifestPath), files).sent
  {
    var validFiles := GetValidFiles(local, manifestPath);
    var ctx := BodyCtx(local, remote, sourceId, manifestPath);
    var read := ReadFileContent(local.cwd, local.disk, manifestPath);
    if |validFiles| > 0 && read.Ok? {
      var remoteManifest := Lookup(ctx.remoteContents, GetRelativePath(local.cwd, manifestPath, manifestPath));
      var all := AllFiles(validFiles, manifestPath, read.value, remoteManifest);
      if StatAll(local, all).Ok? {
        assert UploadBody(local, remote, sourceId, manifestPath).sent == UploadFilesSpec(ctx, all).sent;
      }
    }
  }

  /** When no file is new, every upload of a run is a patch. */
  lemma RunOnlyPatches(ctx: UploadCtx, files: seq<string>)
    requires ctx.newFiles == []
    ensures var sent := UploadFilesSpec(ctx, files).sent;
            forall k :: 0 <= k < |sent| ==> sent[k].incrementType == Patch
  {
    UploadFilesSent(ctx, files);
    var run := UploadFilesSpec(ctx, files);
    forall k | 0 <= k < |run.sent| ensures run.sent[k].incrementType == Patch {
      var i :| 0 <= i < |files| && UploadOne(ctx, files[i]).sent == Some(run.sent[k]);
      UploadOneSpec(ctx, files[i]);
    }
  }

  /** The uploads of a body run over a manifest whose entries are all
      normalised relative paths are all patches. */
  lemma BodyOnlyPatches(local: Local, remote: PushRemote, sourceId: string, m: Path)
    requires Clean(m) && |m| >= 1
    requires var es := Entries(ReadManifest(local.cwd, local.disk, local.parse, Render(m)));
             forall i :: 0 <= i < |es| ==> NormalisedRelative(es[i])
    ensures var sent := UploadBody(local, remote, sourceId, Render(m)).sent;
            forall k :: 0 <= k < |sent| ==> sent[k].incrementType == Patch
  {
    var mp := Render(m);
    var validFiles := GetValidFiles(local, mp);
    var ctx := BodyCtx(local, remote, sourceId, mp);
    NormalisedManifestHasNoNewFiles(local, m);
    assert ctx.newFiles == [];
    var read := ReadFileContent(local.cwd, local.disk, mp);
    if |validFiles| > 0 && read.Ok? {
      var remoteManifest := Lookup(ctx.remoteContents, GetRelativePath(local.cwd, mp, mp));
      var all := AllFiles(validFiles, mp, read.value, remoteManifest);
      if StatAll(local, all).Ok? {
        assert UploadBody(local, remote, sourceId, mp).sent == UploadFilesSpec(ctx, all).sent;
        RunOnlyPatches(ctx, all);
      }
    }
  }

  /** When the manifest's entries are normalised relative paths, every
      upload of a push is a patch: no file is ever new. */
  lemma PushOnlyPatches(records: Records, local: Local, remote: PushRemote, sourceId: string)
    requires Clean(local.cwd)
    requires PrepareUpload(records, local, remote, sourceId).result.Ok?
    requires var mp := PrepareUpload(records, local, remote, sourceId).result.value.0;
             var es := Entries(ReadManifest(local.cwd, local.disk, local.parse, mp));
             forall i :: 0 <= i < |es| ==> NormalisedRelative(es[i])
    ensures var sent := PushSpec(records, local, remote, sourceId).sent;
            forall k :: 0 <= k < |sent| ==> sent[k].incrementType == Patch
  {
    var name := remote.sourceInfo.value.sourceName;
    ManifestPathClean(local.cwd, local.disk, name);
    BodyOnlyPatches(local, remote, sourceId, GetManifestPath(local.cwd, local.disk, name).value);
  }
}
