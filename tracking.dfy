/** The `versionTracking` collection shared by the pull (sync-source) and the
    push (upload-source) engines: one record per source id, holding the last
    installed version and the update lock. */
module VersionTracking {
  import opened Wrappers

  /** A tracking record. `currentVersion` is `None` for a record created by
      the push engine's upsert, which sets only the lock flag. */
  datatype TrackingRecord = TrackingRecord(currentVersion: Option<string>, isUpdateInProgress: bool)

  type Records = map<string, TrackingRecord>

  /** The version a record created by the pull engine starts from. */
  const InitialVersion: string := "0.0.1"

  const AlreadyInProgress: string := "An update is already in progress for this source"

  datatype Increment = Minor | Patch

  /** Some record, of any source, holds the lock. */
  predicate AnyInProgress(records: Records) {
    exists id :: id in records && records[id].isUpdateInProgress
  }

  predicate InProgress(records: Records, sourceId: string) {
    sourceId in records && records[sourceId].isUpdateInProgress
  }

  /** The record an upsert of `{ $set: { isUpdateInProgress: flag } }` leaves. */
  function WithFlag(records: Records, sourceId: string, flag: bool): (t: TrackingRecord)
    ensures t.isUpdateInProgress == flag
    ensures sourceId in records ==> t.currentVersion == records[sourceId].currentVersion
    ensures sourceId !in records ==> t.currentVersion.None?
  {
    if sourceId in records then records[sourceId].(isUpdateInProgress := flag)
    else TrackingRecord(None, flag)
  }

  /** The records after the pull engine's find-or-create of `sourceId`. */
  function FindOrCreate(records: Records, sourceId: string): (r: Records)
    ensures sourceId in r && r.Keys == records.Keys + {sourceId}
    ensures forall id :: id in records ==> r[id] == records[id]
    ensures sourceId !in records ==> r[sourceId] == TrackingRecord(Some(InitialVersion), false)
  {
    if sourceId in records then records
    else records[sourceId := TrackingRecord(Some(InitialVersion), false)]
  }

  /** `generateVersionIncrement`: a new file is a minor change, any other a patch. */
  function GenerateVersionIncrement(isNewFile: bool): (k: Increment)
    ensures k == Minor <==> isNewFile
  {
    if isNewFile then Minor else Patch
  }

  /** Check-then-set as the push engine performs it: it fails exactly when
      the source already holds the lock, and otherwise leaves the lock held. */
  function Acquire(records: Records, sourceId: string): (r: Result<Records, Thrown>)
    ensures r.Err? <==> InProgress(records, sourceId)
    ensures r.Err? ==> r.error == HttpError(409, AlreadyInProgress)
    ensures r.Ok? ==> InProgress(r.value, sourceId) && r.value.Keys == records.Keys + {sourceId}
  {
    if InProgress(records, sourceId) then Err(HttpError(409, AlreadyInProgress))
    else Ok(records[sourceId := WithFlag(records, sourceId, true)])
  }

  /** Two acquisitions in a row never both succeed, and releasing after a
      successful acquisition leaves the source unlocked with every other
      record as it was. */
  lemma AcquireExcludes(records: Records, sourceId: string)
    requires Acquire(records, sourceId).Ok?
    ensures Acquire(Acquire(records, sourceId).value, sourceId).Err?
    ensures var held := Acquire(records, sourceId).value;
            var released := held[sourceId := WithFlag(held, sourceId, false)];
            !InProgress(released, sourceId) &&
            (forall id :: id in records && id != sourceId ==> released[id] == records[id]) &&
            (sourceId in records ==> released[sourceId] == records[sourceId])
  {
  }

  class TrackingStore {
    var records: Records

    constructor ()
      ensures records == map[]
    {
      records := map[];
    }

    /** `checkUpdateInProgress`: 409 exactly when this source holds the lock. */
    method CheckUpdateInProgress(sourceId: string) returns (r: Result<(), Thrown>)
      ensures r.Err? <==> InProgress(records, sourceId)
      ensures r.Err? ==> r.error == HttpError(409, AlreadyInProgress)
    {
      if sourceId in records && records[sourceId].isUpdateInProgress {
        return Err(HttpError(409, AlreadyInProgress));
      }
      return Ok(());
    }

    /** `setUpdateInProgress`: an upsert that touches only the lock flag. */
    method SetUpdateInProgress(sourceId: string, inProgress: bool)
      modifies this
      ensures records == old(records)[sourceId := WithFlag(old(records), sourceId, inProgress)]
    {
      records := records[sourceId := WithFlag(records, sourceId, inProgress)];
    }

    /** The pull engine's `findOne` followed by `create` when absent. */
    method FindOrCreateRecord(sourceId: string)
      modifies this
      ensures records == FindOrCreate(old(records), sourceId)
    {
      if sourceId !in records {
        records := records[sourceId := TrackingRecord(Some(InitialVersion), false)];
      }
    }

    /** The pull engine's final update: new version, lock released. */
    method Stamp(sourceId: string, version: string)
      modifies this
      ensures records == old(records)[sourceId := TrackingRecord(Some(version), false)]
    {
      records := records[sourceId := TrackingRecord(Some(version), false)];
    }
  }
}
