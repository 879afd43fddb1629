/** The pull engine (sync-source `SourceService`): list a source's files
    page by page from the version-control service, fetch their contents in
    batches, install them locally, stamp the version and ask for a restart,
    all under a lock that at most one pull holds at a time. */
module SourceService {
  import opened Wrappers
  import opened Paths
  import opened LocalDisk
  import opened PathMapper
  import opened VersionTracking
  import opened SyncFileSystem

  /** One page of `GET file-versions`: the source's name, the paths on this
      page and the page count the service reports. */
  datatype ListPage = ListPage(source: string, filePaths: seq<string>, totalPages: int)

  datatype Listing = Listing(sourceName: string, filePaths: seq<string>)

  datatype ListOutcome = ListOutcome(result: Result<seq<string>, Thrown>, calls: nat)

  /** The version-control service as it answers during one pull: page `p`
      of the listing is `pages[p - 1]`, and `contents` answers a batch. */
  datatype Remote = Remote(
    pages: seq<Result<ListPage, Thrown>>,
    contents: seq<string> -> Result<seq<FileContent>, Thrown>)

  const PageLimit: nat := 99
  const BatchSize: nat := 10

  /** The answer to a page the service has no answer for. */
  const NoSuchPage: Thrown := HttpError(404, "Request failed with status code 404")

  const AnotherInProgress: string := "Another source update is in progress"

  /** The paths of the successful pages, in order. */
  function PagePaths(pages: seq<Result<ListPage, Thrown>>): seq<string>
    decreases |pages|
  {
    if pages == [] then []
    else (if pages[0].Ok? then pages[0].value.filePaths else []) + PagePaths(pages[1..])
  }

  /** The listing loop from page `page` on: it stops after the first page
      whose number reaches the reported page count. */
  function ListFrom(pages: seq<Result<ListPage, Thrown>>, page: nat): (o: ListOutcome)
    requires page >= 1
    ensures o.calls >= page
    ensures o.result.Ok? ==> o.calls <= |pages| && pages[page - 1].Ok?
    decreases |pages| + 1 - page
  {
    if page > |pages| then ListOutcome(Err(NoSuchPage), page)
    else match pages[page - 1]
      case Err(e) => ListOutcome(Err(e), page)
      case Ok(pg) =>
        if page >= pg.totalPages then ListOutcome(Ok(pg.filePaths), page)
        else
          var rest := ListFrom(pages, page + 1);
          ListOutcome(if rest.result.Ok? then Ok(pg.filePaths + rest.result.value) else rest.result, rest.calls)
  }

  /** The whole listing; the source name is taken from the first page. */
  function ListAll(pages: seq<Result<ListPage, Thrown>>): Result<Listing, Thrown> {
    var o := ListFrom(pages, 1);
    if o.result.Ok? then Ok(Listing(pages[0].value.source, o.result.value)) else Err(o.result.error)
  }

  function Prepend(acc: seq<string>, o: ListOutcome): ListOutcome {
    ListOutcome(if o.result.Ok? then Ok(acc + o.result.value) else o.result, o.calls)
  }

  lemma PrependTwice(acc: seq<string>, x: seq<string>, o: ListOutcome)
    ensures Prepend(acc, Prepend(x, o)) == Prepend(acc + x, o)
  {
    if o.result.Ok? {
      assert acc + (x + o.result.value) == (acc + x) + o.result.value;
    }
  }

  /** When every page reports the same count `total`, the loop asks for
      exactly `max(1, total)` pages and gathers all their paths. */
  lemma {:induction false} ListFromConsistent(pages: seq<Result<ListPage, Thrown>>, total: int, page: nat)
    requires var n := if total < 1 then 1 else total;
             1 <= page <= n <= |pages| &&
             forall i :: 0 <= i < n ==> pages[i].Ok? && pages[i].value.totalPages == total
    ensures var n := if total < 1 then 1 else total;
            ListFrom(pages, page) == ListOutcome(Ok(PagePaths(pages[page - 1..n])), n)
    decreases |pages| - page
  {
    var n := if total < 1 then 1 else total;
    var pg := pages[page - 1].value;
    assert pg.totalPages == total;
    assert pages[page - 1..n][0] == pages[page - 1];
    assert pages[page - 1..n][1..] == pages[page..n];
    if page >= total {
      assert page == n;
      assert pages[page..n] == [];
      assert PagePaths(pages[page - 1..n]) == pg.filePaths + PagePaths([]);
      assert pg.filePaths + [] == pg.filePaths;
    } else {
      ListFromConsistent(pages, total, page + 1);
    }
  }

  lemma ListingComplete(pages: seq<Result<ListPage, Thrown>>, total: int)
    requires var n := if total < 1 then 1 else total;
             n <= |pages| && forall i :: 0 <= i < n ==> pages[i].Ok? && pages[i].value.totalPages == total
    ensures var n := if total < 1 then 1 else total;
            ListFrom(pages, 1).calls == n &&
            ListAll(pages) == Ok(Listing(pages[0].value.source, PagePaths(pages[..n])))
  {
    var n := if total < 1 then 1 else total;
    ListFromConsistent(pages, total, 1);
    assert pages[0..n] == pages[..n];
  }

  /** The listing loop of `updateSource`. */
  method ListAllFilePaths(pages: seq<Result<ListPage, Thrown>>) returns (r: Result<Listing, Thrown>, calls: nat)
    ensures r == ListAll(pages)
    ensures calls == ListFrom(pages, 1).calls
  {
    var page := 1;
    var acc: seq<string> := [];
    var sourceName := "";
    assert Prepend(acc, ListFrom(pages, page)) == ListFrom(pages, 1) by {
      var o := ListFrom(pages, 1);
      if o.result.Ok? {
        assert [] + o.result.value == o.result.value;
      }
    }
    while true
      invariant 1 <= page <= |pages| + 1
      invariant ListFrom(pages, 1) == Prepend(acc, ListFrom(pages, page))
      invariant page > 1 ==> pages[0].Ok? && sourceName == pages[0].value.source
      decreases |pages| + 1 - page
    {
      if page > |pages| {
        return Err(NoSuchPage), page;
      }
      match pages[page - 1]
      case Err(e) =>
        return Err(e), page;
      case Ok(pg) =>
        if page == 1 {
          sourceName := pg.source;
        }
        PrependTwice(acc, pg.filePaths, if page >= pg.totalPages then ListOutcome(Ok([]), page) else ListFrom(pages, page + 1));
        if page >= pg.totalPages {
          assert pg.filePaths + [] == pg.filePaths;
        }
        acc := acc + pg.filePaths;
        if page >= pg.totalPages {
          return Ok(Listing(sourceName, acc)), page;
        }
        page := page + 1;
    }
  }

  // ---------------------------------------------------------------------
  // Batches

  function Flatten<T>(xs: seq<seq<T>>): seq<T>
    decreases |xs|
  {
    if xs == [] then [] else xs[0] + Flatten(xs[1..])
  }

  /** The batches of at most ten paths the contents are requested in. */
  function Chunk(s: seq<string>): seq<seq<string>>
    decreases |s|
  {
    if s == [] then []
    else if |s| <= BatchSize then [s]
    else [s[..BatchSize]] + Chunk(s[BatchSize..])
  }

  /** The batches hold the paths in order, ten to a batch except the last,
      which holds the remainder; no batch is empty. */
  lemma {:induction false} ChunkShape(s: seq<string>)
    ensures Flatten(Chunk(s)) == s
    ensures |Chunk(s)| == (|s| + BatchSize - 1) / BatchSize
    ensures forall i :: 0 <= i < |Chunk(s)| ==> 1 <= |Chunk(s)[i]| <= BatchSize
    ensures forall i :: 0 <= i < |Chunk(s)| - 1 ==> |Chunk(s)[i]| == BatchSize
    decreases |s|
  {
    if s == [] {
    } else if |s| <= BatchSize {
      assert Flatten([s]) == s + Flatten([]);
    } else {
      var rest := Chunk(s[BatchSize..]);
      ChunkShape(s[BatchSize..]);
      assert Chunk(s) == [s[..BatchSize]] + rest;
      assert ([s[..BatchSize]] + rest)[1..] == rest;
      assert s[..BatchSize] + s[BatchSize..] == s;
      assert forall i :: 1 <= i < |Chunk(s)| ==> Chunk(s)[i] == rest[i - 1];
    }
  }

  /** One step of the chunking: the first batch, then the rest chunked. */
  lemma ChunkStep(s: seq<string>, end: nat)
    requires s != [] && end == if BatchSize < |s| then BatchSize else |s|
    ensures Chunk(s) == [s[..end]] + Chunk(s[end..])
  {
    if |s| <= BatchSize {
      assert s[..end] == s;
      assert s[end..] == [];
    }
  }

  method MakeBatches(paths: seq<string>) returns (batches: seq<seq<string>>)
    ensures batches == Chunk(paths)
  {
    batches := [];
    var i := 0;
    while i < |paths|
      invariant 0 <= i <= |paths|
      invariant batches + Chunk(paths[i..]) == Chunk(paths)
    {
      var end := if i + BatchSize < |paths| then i + BatchSize else |paths|;
      ChunkStep(paths[i..], end - i);
      assert paths[i..][..end - i] == paths[i..end];
      assert paths[i..][end - i..] == paths[end..];
      batches := batches + [paths[i..end]];
      // `i += BATCH` in the source; past the last batch the loop ends either way.
      i := end;
    }
    assert paths[i..] == [];
  }

  /** The contents of the batches in order; the first failing request ends it. */
  function FetchAll(contents: seq<string> -> Result<seq<FileContent>, Thrown>, batches: seq<seq<string>>): Result<seq<FileContent>, Thrown>
    decreases |batches|
  {
    if batches == [] then Ok([])
    else
      match FetchAll(contents, batches[..|batches| - 1])
      case Err(e) => Err(e)
      case Ok(before) =>
        match contents(batches[|batches| - 1])
        case Err(e) => Err(e)
        case Ok(got) => Ok(before + got)
  }

  lemma {:induction false} FetchAllStops(contents: seq<string> -> Result<seq<FileContent>, Thrown>, batches: seq<seq<string>>, k: nat)
    requires k <= |batches| && FetchAll(contents, batches[..k]).Err?
    ensures FetchAll(contents, batches) == FetchAll(contents, batches[..k])
    decreases |batches| - k
  {
    if k == |batches| {
      assert batches[..k] == batches;
    } else {
      assert batches[..|batches| - 1][..k] == batches[..k];
      FetchAllStops(contents, batches[..|batches| - 1], k);
    }
  }

  method FetchContents(contents: seq<string> -> Result<seq<FileContent>, Thrown>, batches: seq<seq<string>>)
    returns (r: Result<seq<FileContent>, Thrown>)
    ensures r == FetchAll(contents, batches)
  {
    var all: seq<FileContent> := [];
    var i := 0;
    while i < |batches|
      invariant 0 <= i <= |batches|
      invariant FetchAll(contents, batches[..i]) == Ok(all)
    {
      assert batches[..i + 1][..i] == batches[..i];
      var got := contents(batches[i]);
      if got.Err? {
        FetchAllStops(contents, batches, i + 1);
        return Err(got.error);
      }
      all := all + got.value;
      i := i + 1;
    }
    assert batches[..i] == batches;
    return Ok(all);
  }

  // ---------------------------------------------------------------------
  // updateSource

  /** Everything a pull leaves behind: the tracking records, the disk, the
      outcome, whether the rollback hook ran and which restart was asked for. */
  datatype Pull = Pull(records: Records, disk: Disk, result: Result<(), Thrown>, rolledBack: bool, restart: Option<string>)

  function Locked(records: Records, sourceId: string): Records {
    var created := FindOrCreate(records, sourceId);
    created[sourceId := WithFlag(created, sourceId, true)]
  }

  function Released(records: Records, sourceId: string): Records {
    var locked := Locked(records, sourceId);
    locked[sourceId := WithFlag(locked, sourceId, false)]
  }

  /** `updateSource`. */
  function PullSpec(records: Records, disk: Disk, env: Env, sourceId: string, remote: Remote, now: string): Pull {
    if AnyInProgress(records) then Pull(records, disk, Err(HttpError(409, AnotherInProgress)), false, None)
    else
      match ListAll(remote.pages)
      case Err(e) => Pull(Released(records, sourceId), disk, Err(e), false, None)
      case Ok(listing) =>
        match FetchAll(remote.contents, Chunk(listing.filePaths))
        case Err(e) => Pull(Released(records, sourceId), disk, Err(e), e.IsErrorInstance(), None)
        case Ok(files) =>
          var synced := SyncFilesSpec(env, disk, files, listing.sourceName);
          match synced.result
          case Err(e) => Pull(Released(records, sourceId), synced.disk, Err(e), e.IsErrorInstance(), None)
          case Ok(_) =>
            Pull(Locked(records, sourceId)[sourceId := TrackingRecord(Some(now), false)], synced.disk,
                 Ok(()), false, Some(listing.sourceName))
  }

  method UpdateSource(store: TrackingStore, local: LocalFs, sourceId: string, remote: Remote, now: string)
    returns (r: Result<(), Thrown>, rolledBack: bool, restart: Option<string>)
    modifies store, local
    ensures Pull(store.records, local.disk, r, rolledBack, restart) ==
            PullSpec(old(store.records), old(local.disk), local.env, sourceId, remote, now)
  {
    rolledBack, restart := false, None;
    if AnyInProgress(store.records) {
      r := Err(HttpError(409, AnotherInProgress));
      return;
    }
    store.FindOrCreateRecord(sourceId);
    store.SetUpdateInProgress(sourceId, true);
    var listed, _ := ListAllFilePaths(remote.pages);
    if listed.Err? {
      store.SetUpdateInProgress(sourceId, false);
      r := Err(listed.error);
      return;
    }
    var batches := MakeBatches(listed.value.filePaths);
    var fetched := FetchContents(remote.contents, batches);
    if fetched.Err? {
      rolledBack := fetched.error.IsErrorInstance();
      store.SetUpdateInProgress(sourceId, false);
      r := Err(fetched.error);
      return;
    }
    var synced := local.SyncFiles(fetched.value, listed.value.sourceName);
    if synced.Err? {
      rolledBack := synced.error.IsErrorInstance();
      store.SetUpdateInProgress(sourceId, false);
      r := Err(synced.error);
      return;
    }
    store.Stamp(sourceId, now);
    r, restart := Ok(()), Some(listed.value.sourceName);
  }

  // ---------------------------------------------------------------------
  // What a pull guarantees

  /** A pull started while no source is locked leaves no source locked,
      whatever happens, and touches no other source's record. */
  lemma PullReleasesLock(records: Records, disk: Disk, env: Env, sourceId: string, remote: Remote, now: string)
    requires !AnyInProgress(records)
    ensures var p := PullSpec(records, disk, env, sourceId, remote, now);
            !AnyInProgress(p.records) &&
            p.records.Keys == records.Keys + {sourceId} &&
            forall id :: id in records && id != sourceId ==> p.records[id] == records[id]
  {
    var p := PullSpec(records, disk, env, sourceId, remote, now);
    forall id | id in p.records ensures !p.records[id].isUpdateInProgress {
      if id != sourceId {
        assert id in records;
      }
    }
  }

  /** While any source is locked a pull is refused and changes nothing. */
  lemma PullRefusedWhileLocked(records: Records, disk: Disk, env: Env, sourceId: string, remote: Remote, now: string)
    requires AnyInProgress(records)
    ensures PullSpec(records, disk, env, sourceId, remote, now) ==
            Pull(records, disk, Err(HttpError(409, AnotherInProgress)), false, None)
  {
  }

  /** A pull succeeds exactly when listing, fetching and installing all
      succeed; it then records the new version and asks for a restart of
      the source named by the first page. */
  lemma PullSucceeds(records: Records, disk: Disk, env: Env, sourceId: string, remote: Remote, now: string)
    requires !AnyInProgress(records)
    ensures var p := PullSpec(records, disk, env, sourceId, remote, now);
            var listing := ListAll(remote.pages);
            p.result.Ok? <==>
              listing.Ok? &&
              FetchAll(remote.contents, Chunk(listing.value.filePaths)).Ok? &&
              SyncFilesSpec(env, disk, FetchAll(remote.contents, Chunk(listing.value.filePaths)).value,
                            listing.value.sourceName).result.Ok?
    ensures var p := PullSpec(records, disk, env, sourceId, remote, now);
            p.result.Ok? ==>
              p.records[sourceId] == TrackingRecord(Some(now), false) &&
              p.restart == Some(ListAll(remote.pages).value.sourceName) && !p.rolledBack
  {
  }

  /** A failed pull keeps the recorded version (a fresh record keeps the
      initial one) and asks for no restart; a failed listing writes nothing
      and skips the rollback hook. */
  lemma PullFailureKeepsVersion(records: Records, disk: Disk, env: Env, sourceId: string, remote: Remote, now: string)
    requires !AnyInProgress(records)
    requires PullSpec(records, disk, env, sourceId, remote, now).result.Err?
    ensures var p := PullSpec(records, disk, env, sourceId, remote, now);
            p.records[sourceId].currentVersion == FindOrCreate(records, sourceId)[sourceId].currentVersion &&
            p.restart.None?
    ensures ListAll(remote.pages).Err? ==>
              var p := PullSpec(records, disk, env, sourceId, remote, now);
              p.disk == disk && !p.rolledBack
  {
  }

  /** Pulling the same remote state twice: the second pull writes nothing,
      under the conditions of `SyncFilesIdempotent`. */
  lemma PullTwice(records: Records, disk: Disk, env: Env, sourceId: string, remote: Remote, now: string, later: string)
    requires !AnyInProgress(records) && WellFormed(disk)
    requires PullSpec(records, disk, env, sourceId, remote, now).result.Ok?
    requires var listing := ListAll(remote.pages).value;
             var files := FetchAll(remote.contents, Chunk(listing.filePaths)).value;
             var d1 := SyncFilesSpec(env, disk, files, listing.sourceName).disk;
             GetManifestPath(env.cwd, disk, listing.sourceName).Ok? &&
             GetManifestPath(env.cwd, d1, listing.sourceName) == GetManifestPath(env.cwd, disk, listing.sourceName) &&
             var m := GetManifestPath(env.cwd, disk, listing.sourceName).value;
             Consistent(env, disk, listing.sourceName, m, files) && KeepsManifest(env, disk, listing.sourceName, m, files)
    ensures var first := PullSpec(records, disk, env, sourceId, remote, now);
            var second := PullSpec(first.records, first.disk, env, sourceId, remote, later);
            second.result.Ok? && second.disk == first.disk &&
            second.records[sourceId] == TrackingRecord(Some(later), false)
  {
    var listing := ListAll(remote.pages).value;
    var files := FetchAll(remote.contents, Chunk(listing.filePaths)).value;
    var first := PullSpec(records, disk, env, sourceId, remote, now);
    SyncFilesIdempotent(env, disk, files, listing.sourceName);
    PullReleasesLock(records, disk, env, sourceId, remote, now);
  }

  // ---------------------------------------------------------------------
  // getSources

  /** An entry of `GET sources`. */
  datatype SourceInfo = SourceInfo(sourceName: string, version: string)

  datatype SourceView = SourceView(info: SourceInfo, installed: bool)

  datatype SourcesView = SourcesView(sources: seq<SourceView>, isUpdateInProgress: bool)

  /** `getSources`: the remote list (`data`, or nothing when absent) with
      each entry marked installed or not, and whether any pull holds the lock. */
  function GetSources(cwd: Path, disk: Disk, records: Records, listed: Result<Option<seq<SourceInfo>>, Thrown>): (r: Result<SourcesView, Thrown>)
    ensures r.Err? <==> listed.Err?
    ensures r.Ok? ==>
      var data := listed.value.GetOr([]);
      |r.value.sources| == |data| &&
      (forall i :: 0 <= i < |data| ==>
         r.value.sources[i].info == data[i] &&
         r.value.sources[i].installed == CheckSourceExists(cwd, disk, data[i].sourceName)) &&
      (r.value.isUpdateInProgress <==> AnyInProgress(records))
  {
    match listed
    case Err(e) => Err(e)
    case Ok(data) =>
      var all := data.GetOr([]);
      Ok(SourcesView(seq(|all|, i requires 0 <= i < |all| => SourceView(all[i], CheckSourceExists(cwd, disk, all[i].sourceName))),
                     AnyInProgress(records)))
  }
}
