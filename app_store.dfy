/**
 * The application store: an in-memory map from application id to record, whose
 * records get their applicant and status overwritten and their progress log
 * appended to. Persisting the map to a JSON file is not part of this model.
 */
module AppStore {
  import opened Wrappers

  /** One note of a record's progress log: `{"message": m}`. */
  datatype ProgressEntry = ProgressEntry(message: string)

  datatype ApplicationRecord = ApplicationRecord(
    appId: string,
    applicant: string,
    status: string,
    progress: seq<ProgressEntry>)

  /** The `KeyError` raised for an id the store does not hold. */
  datatype StoreError = UnknownApplication(appId: string)

  class ApplicationStore {
    var data: map<string, ApplicationRecord>

    /** Every record is filed under its own id. */
    ghost predicate Valid()
      reads this
    {
      forall id | id in data :: data[id].appId == id
    }

    /** A store whose file does not exist yet starts empty. */
    constructor ()
      ensures Valid() && data == map[]
    {
      data := map[];
    }

    /**
     * `upsert_application`: an unknown id gets a fresh record with an empty log; a known
     * one gets the new applicant and status and keeps its log. No other record changes.
     */
    method UpsertApplication(appId: string, applicant: string, status: string)
      requires Valid()
      modifies this
      ensures Valid()
      ensures data.Keys == old(data).Keys + {appId}
      ensures appId !in old(data) ==> data[appId] == ApplicationRecord(appId, applicant, status, [])
      ensures appId in old(data) ==>
        data[appId] == old(data)[appId].(applicant := applicant, status := status)
      ensures forall id | id in old(data) && id != appId :: data[id] == old(data)[id]
      ensures StatusOf(appId) == Some(status)
    {
      var record := if appId in data then data[appId] else ApplicationRecord(appId, applicant, status, []);
      record := record.(applicant := applicant, status := status);
      data := data[appId := record];
    }

    /**
     * `add_progress`: for an unknown id, fails with `UnknownApplication` and changes
     * nothing; otherwise appends `{"message": message}` to that record's log, leaving
     * the earlier entries, the rest of the record and every other record as they were.
     */
    method AddProgress(appId: string, message: string) returns (outcome: Outcome<StoreError>)
      requires Valid()
      modifies this
      ensures Valid()
      ensures appId !in old(data) <==> outcome == Fail(UnknownApplication(appId))
      ensures appId !in old(data) ==> data == old(data)
      ensures appId in old(data) ==> outcome == Pass && data.Keys == old(data).Keys
      ensures appId in old(data) ==>
        data[appId] == old(data)[appId].(progress := old(data)[appId].progress + [ProgressEntry(message)])
      ensures forall id | id in old(data) && id != appId :: data[id] == old(data)[id]
    {
      if appId !in data {
        return Fail(UnknownApplication(appId));
      }
      var record := data[appId];
      var progress := record.progress + [ProgressEntry(message)];
      data := data[appId := record.(progress := progress)];
      outcome := Pass;
    }

    /** `get_application`: the record filed under `appId`, or None for an unknown id. */
    function GetApplication(appId: string): (r: Option<ApplicationRecord>)
      reads this
      ensures r.Some? <==> appId in data
      ensures r.Some? ==> r.value == data[appId]
    {
      if appId in data then Some(data[appId]) else None
    }

    /** `status_of`: the status of the record filed under `appId`, or None for an unknown id. */
    function StatusOf(appId: string): (r: Option<string>)
      reads this
      ensures r.Some? <==> appId in data
      ensures r.Some? ==> r.value == data[appId].status
    {
      match GetApplication(appId)
      case None => None
      case Some(record) => Some(record.status)
    }
  }

  /**
   * A client's view: after an upsert the status reads back, progress can be added
   * to that id and is logged after what was there, and an unknown id is refused
   * without changing the store.
   */
  method UpsertThenAddProgress(store: ApplicationStore, appId: string, other: string, note: string)
    returns (known: Outcome<StoreError>, unknown: Outcome<StoreError>)
    requires store.Valid() && other != appId && other !in store.data
    modifies store
    ensures store.Valid()
    ensures known == Pass && unknown == Fail(UnknownApplication(other))
    ensures store.StatusOf(appId) == Some("Received") && store.StatusOf(other) == None
    ensures store.data.Keys == old(store.data).Keys + {appId}
    ensures forall id | id in old(store.data) && id != appId :: store.data[id] == old(store.data)[id]
    ensures store.data[appId].progress ==
      (if appId in old(store.data) then old(store.data)[appId].progress else []) + [ProgressEntry(note)]
  {
    store.UpsertApplication(appId, "Applicant", "Received");
    known := store.AddProgress(appId, note);
    var before := store.data;
    unknown := store.AddProgress(other, note);
    assert store.data == before;
  }
}
