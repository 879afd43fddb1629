/** Where a source's manifest lives and where each of its files is written
    (sync-source `PathMapper`, and `checkSourceExists` of `SourceService`). */
module PathMapper {
  import opened Wrappers
  import opened Strings
  import opened Paths
  import opened LocalDisk

  /** The fields of a parsed `manifest.json` that the engines read. */
  datatype ManifestJson = ManifestJson(
    name: Option<string>,
    version: Option<string>,
    files: Option<seq<string>>,
    sourceType: Option<string>)

  /** `JSON.parse`, given as a parameter: `None` when the text is not JSON. */
  type Parser = string -> Option<ManifestJson>

  const InvalidJson: Thrown := PlainError("SyntaxError: Unexpected token in JSON")

  /** `manifest.type || 'plugin'`. */
  function SourceTypeOf(m: ManifestJson): (t: string)
    ensures t != ""
    ensures m.sourceType.Some? && m.sourceType.value != "" ==> t == m.sourceType.value
  {
    match m.sourceType
    case Some(t) => if t == "" then "plugin" else t
    case None => "plugin"
  }

  /** The source type recorded in the manifest at `manifestPath`. */
  function ReadSourceType(d: Disk, parse: Parser, manifestPath: Path): (r: Result<string, Thrown>)
    ensures r.Ok? ==> manifestPath in d.files && parse(d.files[manifestPath]).Some?
    ensures manifestPath in d.files && parse(d.files[manifestPath]).Some? ==>
              r == Ok(SourceTypeOf(parse(d.files[manifestPath]).value))
  {
    match ReadFile(d, manifestPath)
    case Err(e) => Err(e)
    case Ok(text) =>
      match parse(text)
      case None => Err(InvalidJson)
      case Some(m) => Ok(SourceTypeOf(m))
  }

  /** The directory a remote file path is written below. */
  function SourceRoot(cwd: Path, sourceType: string, manifestPath: Path): Path {
    if sourceType == "node-api" then cwd else Dirname(manifestPath)
  }

  /** `mapFilePath`: the manifest is reread for every file; the source name
      plays no part in the result. */
  function MapFilePath(cwd: Path, d: Disk, parse: Parser, filePath: string,
                       sourceName: string, manifestPath: Path): (r: Result<Path, Thrown>)
    ensures r.Ok? <==> ReadSourceType(d, parse, manifestPath).Ok?
    ensures r.Ok? ==>
      r.value == JoinPath(SourceRoot(cwd, ReadSourceType(d, parse, manifestPath).value, manifestPath), filePath)
  {
    match ReadSourceType(d, parse, manifestPath)
    case Err(e) => Err(e)
    case Ok(t) =>
      match t
      case "node-api" => Ok(JoinPath(cwd, filePath))
      case "react-antd-admin" => Ok(JoinPath(Dirname(manifestPath), filePath))
      case _ => Ok(JoinPath(Dirname(manifestPath), filePath))
  }

  /** A remote path already in normalised relative form lands strictly
      below the source root, segment for segment. */
  lemma {:induction false} MapFilePathBelowRoot(cwd: Path, d: Disk, parse: Parser, filePath: string,
                                                sourceName: string, manifestPath: Path)
    requires NormalisedRelative(filePath)
    requires MapFilePath(cwd, d, parse, filePath, sourceName, manifestPath).Ok?
    ensures var root := SourceRoot(cwd, ReadSourceType(d, parse, manifestPath).value, manifestPath);
            MapFilePath(cwd, d, parse, filePath, sourceName, manifestPath).value == root + Split(filePath, '/')
  {
    var root := SourceRoot(cwd, ReadSourceType(d, parse, manifestPath).value, manifestPath);
    FoldClean(root, Split(filePath, '/'));
  }

  /** Nothing confines a remote path to the source root: `..` segments
      climb out of it. */
  lemma MapFilePathCanLeaveRoot(root: Path, x: string)
    requires IsSegment(x)
    ensures JoinPath(root, "../" + x) == Sibling(root, x)
  {
    assert "../" + x == ".." + ['/'] + x;
    SplitConcatSep("..", x, '/');
    SplitNoSep("..", '/');
    SplitNoSep(x, '/');
    assert Split("../" + x, '/') == ["..", x];
    assert Fold(root, ["..", x]) == Fold(Step(root, ".."), [x]);
    assert Fold(Step(root, ".."), [x]) == Fold(Dirname(root) + [x], []);
  }

  const ManifestName: string := "manifest.json"

  /** `path.join(base, 'manifest.json')`. */
  lemma JoinManifestName(base: Path)
    ensures JoinPath(base, ManifestName) == base + [ManifestName]
  {
    assert IsSegment(ManifestName);
    SplitNoSep(ManifestName, '/');
    FoldClean(base, [ManifestName]);
  }

  /** `path.join(cwd, '..', name)`: the sibling `name` of `cwd`. */
  function Sibling(cwd: Path, name: string): Path {
    Dirname(cwd) + [name]
  }

  /** `path.join(cwd, 'src', 'plugins', sourceName)`. */
  function PluginDir(cwd: Path, sourceName: string): Path {
    Fold(cwd + ["src", "plugins"], Split(sourceName, '/'))
  }

  /** `path.join(cwd, 'src', 'plugins', sourceName, 'manifest.json')`. */
  function PluginManifestPath(cwd: Path, sourceName: string): Path {
    Fold(cwd + ["src", "plugins"], Split(sourceName, '/') + [ManifestName])
  }

  /** `path.join(cwd, 'manifest.json')`. */
  function RootManifestPath(cwd: Path): Path {
    cwd + [ManifestName]
  }

  /** `getManifestPath`: the plugin's own manifest when it exists, else the
      root manifest of the running service, whatever the source name. */
  function GetManifestPath(cwd: Path, d: Disk, sourceName: string): (r: Result<Path, Thrown>)
    ensures r.Ok? <==> Accessible(d, PluginManifestPath(cwd, sourceName)) || Accessible(d, RootManifestPath(cwd))
    ensures r.Ok? ==> Accessible(d, r.value)
    ensures Accessible(d, PluginManifestPath(cwd, sourceName)) ==> r == Ok(PluginManifestPath(cwd, sourceName))
    ensures r.Err? ==> r.error == PlainError("Manifest not found for source " + sourceName)
  {
    if Accessible(d, PluginManifestPath(cwd, sourceName)) then Ok(PluginManifestPath(cwd, sourceName))
    else if Accessible(d, RootManifestPath(cwd)) then Ok(RootManifestPath(cwd))
    else Err(PlainError("Manifest not found for source " + sourceName))
  }

  /** The directory `checkSourceExists` looks at. */
  function InstallDir(cwd: Path, sourceName: string): Path {
    if sourceName == "node-api" then cwd
    else if sourceName == "react-antd-admin" then Sibling(cwd, sourceName)
    else PluginDir(cwd, sourceName)
  }

  /** `checkSourceExists`: the install directory and the manifest inside it
      are both accessible. */
  function CheckSourceExists(cwd: Path, d: Disk, sourceName: string): (installed: bool)
    ensures installed ==> Accessible(d, InstallDir(cwd, sourceName))
  {
    Accessible(d, InstallDir(cwd, sourceName)) &&
    Accessible(d, InstallDir(cwd, sourceName) + [ManifestName])
  }

  /** Which directory `checkSourceExists` looks in, per kind of name, and
      that the answer is true exactly when that directory and the
      `manifest.json` inside it are both accessible: the service's own
      working directory, the admin front end beside it, or a plugin folder
      under `src/plugins` (for a plain one-segment plugin name). */
  lemma {:induction false} CheckSourceExistsWhere(cwd: Path, d: Disk, sourceName: string)
    ensures sourceName == "node-api" ==>
              (CheckSourceExists(cwd, d, sourceName) <==>
                 Accessible(d, cwd) && Accessible(d, cwd + ["manifest.json"]))
    ensures sourceName == "react-antd-admin" ==>
              (CheckSourceExists(cwd, d, sourceName) <==>
                 Accessible(d, Dirname(cwd) + ["react-antd-admin"]) &&
                 Accessible(d, Dirname(cwd) + ["react-antd-admin", "manifest.json"]))
    ensures sourceName != "node-api" && sourceName != "react-antd-admin" && IsSegment(sourceName) ==>
              (CheckSourceExists(cwd, d, sourceName) <==>
                 Accessible(d, cwd + ["src", "plugins", sourceName]) &&
                 Accessible(d, cwd + ["src", "plugins", sourceName, "manifest.json"]))
  {
    if sourceName != "node-api" && sourceName != "react-antd-admin" && IsSegment(sourceName) {
      SplitNoSep(sourceName, '/');
      FoldClean(cwd + ["src", "plugins"], [sourceName]);
      assert PluginDir(cwd, sourceName) == cwd + ["src", "plugins", sourceName];
      assert cwd + ["src", "plugins", sourceName] + [ManifestName] == cwd + ["src", "plugins", sourceName, "manifest.json"];
    } else if sourceName == "react-antd-admin" {
      assert Dirname(cwd) + ["react-antd-admin"] + [ManifestName] == Dirname(cwd) + ["react-antd-admin", "manifest.json"];
    }
  }

  /** The manifest of an installed plugin is the one its files are mapped
      through. */
  lemma {:induction false} InstalledPluginResolves(cwd: Path, d: Disk, sourceName: string)
    requires sourceName != "node-api" && sourceName != "react-antd-admin"
    requires CheckSourceExists(cwd, d, sourceName)
    ensures GetManifestPath(cwd, d, sourceName) == Ok(PluginDir(cwd, sourceName) + [ManifestName])
  {
    var base := cwd + ["src", "plugins"];
    FoldAppend(base, Split(sourceName, '/'), [ManifestName]);
    FoldClean(PluginDir(cwd, sourceName), [ManifestName]);
  }

  /** Every installed source except the admin front end resolves a manifest. */
  lemma InstalledResolves(cwd: Path, d: Disk, sourceName: string)
    requires sourceName != "react-antd-admin"
    requires CheckSourceExists(cwd, d, sourceName)
    ensures GetManifestPath(cwd, d, sourceName).Ok?
  {
    if sourceName != "node-api" {
      InstalledPluginResolves(cwd, d, sourceName);
    }
  }

  /** The admin front end is looked for beside the service, but its files
      are mapped through the service's own root manifest: an installed admin
      front end resolves no manifest when the service has none. */
  lemma AdminInstalledWithoutManifest(cwd: Path, d: Disk)
    requires Accessible(d, Sibling(cwd, "react-antd-admin"))
    requires Accessible(d, Sibling(cwd, "react-antd-admin") + [ManifestName])
    requires !Accessible(d, RootManifestPath(cwd))
    requires !Accessible(d, PluginManifestPath(cwd, "react-antd-admin"))
    ensures CheckSourceExists(cwd, d, "react-antd-admin")
    ensures GetManifestPath(cwd, d, "react-antd-admin").Err?
  {
  }
}
