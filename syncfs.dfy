/** The pull engine's local side (sync-source `FileSystemService`): each
    fetched file is written where the source's manifest says it belongs,
    and the affected services are restarted afterwards. */
module SyncFileSystem {
  import opened Wrappers
  import opened Paths
  import opened LocalDisk
  import opened PathMapper

  /** One fetched file: the path the remote reports and the text to install. */
  datatype FileContent = FileContent(filePath: string, content: string)

  datatype SyncStatus = Unchanged | Changed | New

  datatype FileStatus = FileStatus(path: Path, status: SyncStatus)

  /** The process's working directory and the JSON parser it uses. */
  datatype Env = Env(cwd: Path, parse: Parser)

  datatype SyncStep = SyncStep(disk: Disk, result: Result<FileStatus, Thrown>)

  datatype SyncOutcome = SyncOutcome(disk: Disk, result: Result<seq<FileStatus>, Thrown>)

  /** Where `f` is written when the manifest at `manifestPath` governs. */
  function Target(env: Env, d: Disk, sourceName: string, manifestPath: Path, f: FileContent): Result<Path, Thrown> {
    MapFilePath(env.cwd, d, env.parse, f.filePath, sourceName, manifestPath)
  }

  /** `syncFile`: map the path, create its directory, then compare and write.
      A file whose text already matches is left alone. */
  function SyncOne(env: Env, d: Disk, sourceName: string, manifestPath: Path, f: FileContent): (o: SyncStep)
    ensures o.result.Ok? ==> Target(env, d, sourceName, manifestPath, f) == Ok(o.result.value.path)
    ensures o.result.Ok? ==> o.disk.files == d.files[o.result.value.path := f.content]
    ensures o.result.Ok? ==>
      var p := o.result.value.path;
      (o.result.value.status == Unchanged <==> p in d.files && d.files[p] == f.content) &&
      (o.result.value.status == New <==> p !in d.files)
    ensures o.result.Err? ==> o.disk.files == d.files
  {
    match Target(env, d, sourceName, manifestPath, f)
    case Err(e) => SyncStep(d, Err(e))
    case Ok(p) =>
      match Mkdir(d, Dirname(p))
      case Err(e) => SyncStep(d, Err(e))
      case Ok(d1) =>
        if p in d1.files && d1.files[p] == f.content then
          assert d1.files[p := f.content] == d1.files;
          SyncStep(d1, Ok(FileStatus(p, Unchanged)))
        else
          var status := if p in d1.files then Changed else New;
          match WriteFile(d1, p, f.content)
          case Err(e) => SyncStep(d1, Err(e))
          case Ok(d2) => SyncStep(d2, Ok(FileStatus(p, status)))
  }

  /** The files synchronised one after another; the first failure stops the
      run and what was written before it stays written. */
  function SyncSeq(env: Env, d: Disk, sourceName: string, manifestPath: Path, fs: seq<FileContent>): (o: SyncOutcome)
    ensures o.result.Ok? ==> |o.result.value| == |fs|
    decreases |fs|
  {
    if fs == [] then SyncOutcome(d, Ok([]))
    else
      var prev := SyncSeq(env, d, sourceName, manifestPath, fs[..|fs| - 1]);
      if prev.result.Err? then prev
      else
        var step := SyncOne(env, prev.disk, sourceName, manifestPath, fs[|fs| - 1]);
        match step.result
        case Err(e) => SyncOutcome(step.disk, Err(e))
        case Ok(s) => SyncOutcome(step.disk, Ok(prev.result.value + [s]))
  }

  /** One more file on a run that has not failed yet. */
  lemma SyncSeqSnoc(env: Env, d: Disk, sourceName: string, m: Path, fs: seq<FileContent>, i: nat)
    requires i < |fs|
    ensures var prev := SyncSeq(env, d, sourceName, m, fs[..i]);
            var next := SyncSeq(env, d, sourceName, m, fs[..i + 1]);
            (next.result.Ok? ==> prev.result.Ok?) &&
            (prev.result.Ok? ==>
              var step := SyncOne(env, prev.disk, sourceName, m, fs[i]);
              next.disk == step.disk &&
              next.result == (if step.result.Ok? then Ok(prev.result.value + [step.result.value]) else Err(step.result.error)))
  {
    assert fs[..i + 1][..i] == fs[..i];
  }

  /** After the first failure the rest of the files are not looked at. */
  lemma {:induction false} SyncSeqStops(env: Env, d: Disk, sourceName: string, m: Path, fs: seq<FileContent>, k: nat)
    requires k <= |fs| && SyncSeq(env, d, sourceName, m, fs[..k]).result.Err?
    ensures SyncSeq(env, d, sourceName, m, fs) == SyncSeq(env, d, sourceName, m, fs[..k])
    decreases |fs| - k
  {
    if k == |fs| {
      assert fs[..k] == fs;
    } else {
      assert fs[..|fs| - 1][..k] == fs[..k];
      SyncSeqStops(env, d, sourceName, m, fs[..|fs| - 1], k);
      assert fs != [];
    }
  }

  /** `syncFiles`: resolve the manifest once, then synchronise in order. */
  function SyncFilesSpec(env: Env, d: Disk, fs: seq<FileContent>, sourceName: string): SyncOutcome {
    match GetManifestPath(env.cwd, d, sourceName)
    case Err(e) => SyncOutcome(d, Err(e))
    case Ok(m) => SyncSeq(env, d, sourceName, m, fs)
  }

  // ---------------------------------------------------------------------
  // Service restarts

  datatype Command = Pause(ms: nat) | Exec(command: string, dir: Path)

  function NodeRestart(cwd: Path): seq<Command> {
    [Pause(2000), Exec("pm2 restart node-api", cwd)]
  }

  function AdminRestart(cwd: Path): seq<Command> {
    [Pause(2000), Exec("npm run build", Sibling(cwd, "react-antd-admin")), Exec("pm2 restart admin", cwd)]
  }

  predicate RestartsNode(cwd: Path, plan: seq<Command>) {
    Exec("pm2 restart node-api", cwd) in plan
  }

  predicate RestartsAdmin(cwd: Path, plan: seq<Command>) {
    Exec("pm2 restart admin", cwd) in plan
  }

  /** The commands `triggerServiceRestart` runs for a source: the service it
      belongs to, the admin front end being built before it is restarted,
      and for a plugin the admin front end first and the API after. */
  function RestartPlan(cwd: Path, sourceName: string): (plan: seq<Command>)
    ensures sourceName == "node-api" ==> RestartsNode(cwd, plan) && !RestartsAdmin(cwd, plan)
    ensures sourceName == "react-antd-admin" ==> RestartsAdmin(cwd, plan) && !RestartsNode(cwd, plan)
    ensures sourceName != "node-api" && sourceName != "react-antd-admin" ==>
      exists i, j :: 0 <= i < j < |plan| && plan[i] == Exec("pm2 restart admin", cwd) &&
                     plan[j] == Exec("pm2 restart node-api", cwd)
    ensures sourceName != "node-api" ==>
      exists i, j :: 0 <= i < j < |plan| && plan[i] == Exec("npm run build", Sibling(cwd, "react-antd-admin")) &&
                     plan[j] == Exec("pm2 restart admin", cwd)
  {
    if sourceName == "node-api" then NodeRestart(cwd)
    else if sourceName == "react-antd-admin" then
      var plan := AdminRestart(cwd);
      assert plan[1] == Exec("npm run build", Sibling(cwd, "react-antd-admin")) && plan[2] == Exec("pm2 restart admin", cwd);
      plan
    else
      var plan := AdminRestart(cwd) + [Pause(2000)] + NodeRestart(cwd);
      assert plan[1] == Exec("npm run build", Sibling(cwd, "react-antd-admin"));
      assert plan[2] == Exec("pm2 restart admin", cwd) && plan[5] == Exec("pm2 restart node-api", cwd);
      plan
  }

  class LocalFs {
    var disk: Disk
    const env: Env

    constructor (env: Env, disk: Disk)
      ensures this.env == env && this.disk == disk
    {
      this.env := env;
      this.disk := disk;
    }

    /** `syncFile`. */
    method SyncFile(f: FileContent, sourceName: string, manifestPath: Path) returns (r: Result<FileStatus, Thrown>)
      modifies this
      ensures SyncStep(disk, r) == SyncOne(env, old(disk), sourceName, manifestPath, f)
    {
      var mapped := MapFilePath(env.cwd, disk, env.parse, f.filePath, sourceName, manifestPath);
      if mapped.Err? {
        return Err(mapped.error);
      }
      var p := mapped.value;
      var made := Mkdir(disk, Dirname(p));
      if made.Err? {
        return Err(made.error);
      }
      disk := made.value;
      var present := p in disk.files;
      if present && disk.files[p] == f.content {
        return Ok(FileStatus(p, Unchanged));
      }
      var status := if present then Changed else New;
      var written := WriteFile(disk, p, f.content);
      if written.Err? {
        return Err(written.error);
      }
      disk := written.value;
      return Ok(FileStatus(p, status));
    }

    /** `syncFiles`. */
    method SyncFiles(fs: seq<FileContent>, sourceName: string) returns (r: Result<seq<FileStatus>, Thrown>)
      modifies this
      ensures SyncOutcome(disk, r) == SyncFilesSpec(env, old(disk), fs, sourceName)
    {
      var found := GetManifestPath(env.cwd, disk, sourceName);
      if found.Err? {
        return Err(found.error);
      }
      var m := found.value;
      var statuses: seq<FileStatus> := [];
      var i := 0;
      while i < |fs|
        invariant 0 <= i <= |fs|
        invariant SyncSeq(env, old(disk), sourceName, m, fs[..i]) == SyncOutcome(disk, Ok(statuses))
      {
        SyncSeqSnoc(env, old(disk), sourceName, m, fs, i);
        var s := SyncFile(fs[i], sourceName, m);
        if s.Err? {
          SyncSeqStops(env, old(disk), sourceName, m, fs, i + 1);
          return Err(s.error);
        }
        statuses := statuses + [s.value];
        i := i + 1;
      }
      assert fs[..i] == fs;
      return Ok(statuses);
    }

    /** `triggerServiceRestart`: runs the plan until a command fails; a
        failure is swallowed, so the caller never sees one. */
    method TriggerServiceRestart(sourceName: string, failing: set<Command>) returns (ran: seq<Command>)
      ensures var plan := RestartPlan(env.cwd, sourceName);
              |ran| <= |plan| && ran == plan[..|ran|]
      ensures forall i :: 0 <= i < |ran| - 1 ==> ran[i] !in failing
      ensures |ran| < |RestartPlan(env.cwd, sourceName)| ==> |ran| >= 1 && ran[|ran| - 1] in failing
    {
      ran := RunUntilFailure(RestartPlan(env.cwd, sourceName), failing);
    }
  }

  /** The `for` loop of `triggerServiceRestart`: each command runs in
      turn, and the first one that fails ends the loop. */
  method RunUntilFailure(plan: seq<Command>, failing: set<Command>) returns (ran: seq<Command>)
    ensures |ran| <= |plan| && ran == plan[..|ran|]
    ensures forall i :: 0 <= i < |ran| - 1 ==> ran[i] !in failing
    ensures |ran| < |plan| ==> |ran| >= 1 && ran[|ran| - 1] in failing
  {
    ran := [];
    var i := 0;
    while i < |plan|
      invariant 0 <= i <= |plan| && ran == plan[..i]
      invariant forall k :: 0 <= k < i ==> plan[k] !in failing
    {
      ran := ran + [plan[i]];
      if plan[i] in failing {
        return;
      }
      i := i + 1;
    }
  }

  // ---------------------------------------------------------------------
  // Running a pull twice

  /** Two remote entries that land on the same local file carry the same text. */
  predicate Consistent(env: Env, d: Disk, sourceName: string, m: Path, fs: seq<FileContent>) {
    forall i, j :: 0 <= i < |fs| && 0 <= j < |fs| && Target(env, d, sourceName, m, fs[i]).Ok? &&
                   Target(env, d, sourceName, m, fs[i]) == Target(env, d, sourceName, m, fs[j]) ==>
                   fs[i].content == fs[j].content
  }

  /** A remote entry that lands on the manifest carries the manifest's current text. */
  predicate KeepsManifest(env: Env, d: Disk, sourceName: string, m: Path, fs: seq<FileContent>) {
    forall i :: 0 <= i < |fs| && Target(env, d, sourceName, m, fs[i]) == Ok(m) ==>
                m in d.files && fs[i].content == d.files[m]
  }

  predicate SameManifest(d: Disk, d': Disk, m: Path) {
    m in d.files && m in d'.files && d.files[m] == d'.files[m]
  }

  lemma TargetFollowsManifest(env: Env, d: Disk, d': Disk, sourceName: string, m: Path, f: FileContent)
    requires SameManifest(d, d', m)
    ensures Target(env, d', sourceName, m, f) == Target(env, d, sourceName, m, f)
  {
  }

  lemma SyncOneFacts(env: Env, d: Disk, sourceName: string, m: Path, f: FileContent)
    requires WellFormed(d) && SyncOne(env, d, sourceName, m, f).result.Ok?
    ensures var o := SyncOne(env, d, sourceName, m, f);
            WellFormed(o.disk) && Dirname(o.result.value.path) in o.disk.dirs && d.dirs <= o.disk.dirs
  {
    var p := Target(env, d, sourceName, m, f).value;
    MkdirKeepsWellFormed(d, Dirname(p));
    var d1 := Mkdir(d, Dirname(p)).value;
    if !(p in d1.files && d1.files[p] == f.content) {
      WriteKeepsWellFormed(d1, p, f.content);
    }
  }

  lemma PlacedAfterWrite(dp: Disk, dk: Disk, p: Path, c: string, q: Path, cq: string)
    requires dk.files == dp.files[p := c] && dp.dirs <= dk.dirs
    requires q in dp.files && dp.files[q] == cq && Dirname(q) in dp.dirs
    requires q == p ==> cq == c
    ensures q in dk.files && dk.files[q] == cq && Dirname(q) in dk.dirs
  {
  }

  /** What a successful first run leaves behind: a tree holding every
      file's text at its target, below an existing directory. */
  lemma {:induction false} FirstRun(env: Env, d0: Disk, sourceName: string, m: Path, fs: seq<FileContent>, k: nat)
    requires WellFormed(d0) && k <= |fs|
    requires Consistent(env, d0, sourceName, m, fs) && KeepsManifest(env, d0, sourceName, m, fs)
    requires SyncSeq(env, d0, sourceName, m, fs[..k]).result.Ok?
    ensures var dk := SyncSeq(env, d0, sourceName, m, fs[..k]).disk;
            WellFormed(dk) &&
            (k > 0 ==> SameManifest(d0, dk, m)) &&
            (forall i :: 0 <= i < k ==>
              Target(env, d0, sourceName, m, fs[i]).Ok? &&
              var p := Target(env, d0, sourceName, m, fs[i]).value;
              p in dk.files && dk.files[p] == fs[i].content && Dirname(p) in dk.dirs)
  {
    if k == 0 {
      assert fs[..0] == [];
    } else {
      var prev := SyncSeq(env, d0, sourceName, m, fs[..k - 1]);
      SyncSeqSnoc(env, d0, sourceName, m, fs, k - 1);
      FirstRun(env, d0, sourceName, m, fs, k - 1);
      var dp := prev.disk;
      var f := fs[k - 1];
      var step := SyncOne(env, dp, sourceName, m, f);
      assert step.result.Ok?;
      var dk := step.disk;
      assert dk == SyncSeq(env, d0, sourceName, m, fs[..k]).disk;
      if k - 1 > 0 {
        TargetFollowsManifest(env, d0, dp, sourceName, m, f);
      } else {
        assert dp == d0;
      }
      var p := step.result.value.path;
      assert Target(env, d0, sourceName, m, f) == Ok(p);
      SyncOneFacts(env, dp, sourceName, m, f);
      assert m in dp.files;
      assert SameManifest(d0, dk, m) by {
        if p == m {
          assert KeepsManifest(env, d0, sourceName, m, fs);
          assert Target(env, d0, sourceName, m, fs[k - 1]) == Ok(m);
        }
      }
      forall i | 0 <= i < k
        ensures Target(env, d0, sourceName, m, fs[i]).Ok? &&
                var q := Target(env, d0, sourceName, m, fs[i]).value;
                q in dk.files && dk.files[q] == fs[i].content && Dirname(q) in dk.dirs
      {
        if i < k - 1 {
          var q := Target(env, d0, sourceName, m, fs[i]).value;
          assert q in dp.files && dp.files[q] == fs[i].content && Dirname(q) in dp.dirs;
          if q == p {
            assert Consistent(env, d0, sourceName, m, fs);
            assert fs[i].content == fs[k - 1].content;
          }
          PlacedAfterWrite(dp, dk, p, f.content, q, fs[i].content);
        } else {
          assert i == k - 1;
        }
      }
    }
  }

  /** On that tree a second run changes nothing and reports every file
      unchanged. */
  lemma {:induction false} SecondRun(env: Env, d0: Disk, d1: Disk, sourceName: string, m: Path, fs: seq<FileContent>, k: nat)
    requires WellFormed(d1) && k <= |fs|
    requires |fs| > 0 ==> SameManifest(d0, d1, m)
    requires forall i :: 0 <= i < |fs| ==>
               Target(env, d0, sourceName, m, fs[i]).Ok? &&
               var p := Target(env, d0, sourceName, m, fs[i]).value;
               p in d1.files && d1.files[p] == fs[i].content && Dirname(p) in d1.dirs
    ensures var o := SyncSeq(env, d1, sourceName, m, fs[..k]);
            o.disk == d1 && o.result.Ok? &&
            forall i :: 0 <= i < k ==> o.result.value[i] == FileStatus(Target(env, d0, sourceName, m, fs[i]).value, Unchanged)
  {
    if k == 0 {
      assert fs[..0] == [];
    } else {
      SyncSeqSnoc(env, d1, sourceName, m, fs, k - 1);
      SecondRun(env, d0, d1, sourceName, m, fs, k - 1);
      var f := fs[k - 1];
      TargetFollowsManifest(env, d0, d1, sourceName, m, f);
      var p := Target(env, d0, sourceName, m, f).value;
      MkdirExisting(d1, Dirname(p));
      assert SyncOne(env, d1, sourceName, m, f) == SyncStep(d1, Ok(FileStatus(p, Unchanged)));
      var before := SyncSeq(env, d1, sourceName, m, fs[..k - 1]).result.value;
      var after := SyncSeq(env, d1, sourceName, m, fs[..k]).result.value;
      assert after == before + [FileStatus(p, Unchanged)];
      forall i | 0 <= i < k
        ensures after[i] == FileStatus(Target(env, d0, sourceName, m, fs[i]).value, Unchanged)
      {
        if i < k - 1 {
          assert after[i] == before[i];
        }
      }
    }
  }

  /** Pulling the same files a second time writes nothing and reports every
      file unchanged, provided the first run did not change which manifest
      governs the mapping nor the manifest's text, and no two files that
      land on the same path disagree. */
  lemma SyncFilesIdempotent(env: Env, d0: Disk, fs: seq<FileContent>, sourceName: string)
    requires WellFormed(d0)
    requires GetManifestPath(env.cwd, d0, sourceName).Ok?
    requires SyncFilesSpec(env, d0, fs, sourceName).result.Ok?
    requires GetManifestPath(env.cwd, SyncFilesSpec(env, d0, fs, sourceName).disk, sourceName) ==
             GetManifestPath(env.cwd, d0, sourceName)
    requires var m := GetManifestPath(env.cwd, d0, sourceName).value;
             Consistent(env, d0, sourceName, m, fs) && KeepsManifest(env, d0, sourceName, m, fs)
    ensures var d1 := SyncFilesSpec(env, d0, fs, sourceName).disk;
            var o := SyncFilesSpec(env, d1, fs, sourceName);
            o.disk == d1 && o.result.Ok? && |o.result.value| == |fs| &&
            forall i :: 0 <= i < |fs| ==> o.result.value[i].status == Unchanged
  {
    var m := GetManifestPath(env.cwd, d0, sourceName).value;
    var d1 := SyncFilesSpec(env, d0, fs, sourceName).disk;
    assert fs[..|fs|] == fs;
    FirstRun(env, d0, sourceName, m, fs, |fs|);
    SecondRun(env, d0, d1, sourceName, m, fs, |fs|);
  }
}
