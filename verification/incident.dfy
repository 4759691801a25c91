/** The incident record and the in-memory incident store
    (server/models/incident.ts).

    The store is the module-level array `incidents`; here it is a value of
    type `Store` threaded through every operation. The fresh identifier that
    `randomUUID()` draws and the clock reading `Date.now()` are parameters. */
module Incidents {
  import opened Wrappers

  /** A resolved incident as stored: its identifier and creation time, the
      four text fields, the optional stored patch, the embedding of its text
      and its tag map. */
  datatype Incident = Incident(
    id: string,
    description: string,
    service: string,
    environment: string,
    rootCauseSummary: string,
    patchDiff: Option<string>,
    timestamp: int,
    embedding: seq<real>,
    tags: map<string, string>)

  /** The argument of `createIncident`: an incident without `id` and
      `timestamp`. */
  datatype IncidentData = IncidentData(
    description: string,
    service: string,
    environment: string,
    rootCauseSummary: string,
    patchDiff: Option<string>,
    embedding: seq<real>,
    tags: map<string, string>)

  type Store = seq<Incident>

  /** The store after a creation together with the record it returned. */
  datatype Creation = Creation(store: Store, incident: Incident)

  /** The payload of a stored record: everything but `id` and `timestamp`. */
  function Payload(inc: Incident): IncidentData {
    IncidentData(inc.description, inc.service, inc.environment,
                 inc.rootCauseSummary, inc.patchDiff, inc.embedding, inc.tags)
  }

  /** `{...data, id, timestamp}`. */
  function Stamp(data: IncidentData, id: string, timestamp: int): Incident {
    Incident(id, data.description, data.service, data.environment,
             data.rootCauseSummary, data.patchDiff, timestamp, data.embedding, data.tags)
  }

  /** `createIncident`: builds the record from the payload, the fresh id and
      the current time, appends it to the store and returns it. */
  function CreateIncident(store: Store, data: IncidentData, id: string, now: int): (c: Creation)
    ensures |c.store| == |store| + 1
    ensures c.store[..|store|] == store
    ensures c.store[|store|] == c.incident
    ensures c.incident.id == id && c.incident.timestamp == now
    ensures Payload(c.incident) == data
  {
    var incident := Stamp(data, id, now);
    Creation(store + [incident], incident)
  }

  /** `getAllIncidents`: the stored records in insertion order. The source
      hands out the live array; here it is a value copy. */
  function GetAllIncidents(store: Store): Store {
    store
  }

  ghost predicate HasId(store: Store, id: string) {
    exists k :: 0 <= k < |store| && store[k].id == id
  }

  /** `k` is the first position of the store holding `id`. */
  ghost predicate IsFirstWithId(store: Store, id: string, k: int) {
    && 0 <= k < |store|
    && store[k].id == id
    && forall j :: 0 <= j < k ==> store[j].id != id
  }

  /** `getIncidentById`: the first record whose id is `id`, if any. */
  function GetIncidentById(store: Store, id: string): (r: Option<Incident>)
    ensures r.None? <==> !HasId(store, id)
    ensures r.Some? ==> exists k :: IsFirstWithId(store, id, k) && store[k] == r.value
  {
    if |store| == 0 then None
    else if store[0].id == id then
      assert IsFirstWithId(store, id, 0);
      Some(store[0])
    else
      var r := GetIncidentById(store[1..], id);
      assert r.None? <==> !HasId(store, id) by {
        if HasId(store, id) {
          var k :| 0 <= k < |store| && store[k].id == id;
          assert store[1..][k - 1].id == id;
        }
      }
      assert r.Some? ==> exists k :: IsFirstWithId(store, id, k) && store[k] == r.value by {
        if r.Some? {
          var k :| IsFirstWithId(store[1..], id, k) && store[1..][k] == r.value;
          assert IsFirstWithId(store, id, k + 1);
        }
      }
      r
  }

  /** `_clearIncidents`: empties the store. */
  function ClearIncidents(store: Store): (r: Store)
    ensures |r| == 0
  {
    []
  }

  /** The separator both handlers put between the text fields they embed. */
  const Separator := " | "

  /** Every identifier occurs at most once. */
  ghost predicate UniqueIds(store: Store) {
    forall i, j :: 0 <= i < j < |store| ==> store[i].id != store[j].id
  }

  /** Creation leaves every earlier record in place and the listing grows by
      the returned record at the end. */
  lemma CreateThenList(store: Store, data: IncidentData, id: string, now: int)
    ensures GetAllIncidents(CreateIncident(store, data, id, now).store)
         == GetAllIncidents(store) + [CreateIncident(store, data, id, now).incident]
  {
  }

  /** A record created under a fresh id is found again by that id, with every
      field as stored. */
  lemma CreateThenFind(store: Store, data: IncidentData, id: string, now: int)
    requires !HasId(store, id)
    ensures GetIncidentById(CreateIncident(store, data, id, now).store, id)
         == Some(CreateIncident(store, data, id, now).incident)
    ensures GetIncidentById(CreateIncident(store, data, id, now).store, id).value
         == Stamp(data, id, now)
  {
    var c := CreateIncident(store, data, id, now);
    var r := GetIncidentById(c.store, id);
    assert c.store[|store|].id == id;
    assert forall j :: 0 <= j < |store| ==> c.store[j] == store[j];
    var k :| IsFirstWithId(c.store, id, k) && c.store[k] == r.value;
    assert k == |store|;
  }

  /** Creating a record under a fresh id keeps identifiers unique. */
  lemma CreatePreservesUniqueIds(store: Store, data: IncidentData, id: string, now: int)
    requires UniqueIds(store) && !HasId(store, id)
    ensures UniqueIds(CreateIncident(store, data, id, now).store)
  {
    var s' := CreateIncident(store, data, id, now).store;
    forall i, j | 0 <= i < j < |s'|
      ensures s'[i].id != s'[j].id
    {
      assert s'[i] == store[i];
      if j < |store| {
        assert s'[j] == store[j];
      }
    }
  }

  /** Lookups in earlier records are not disturbed by a later creation. */
  lemma CreateKeepsEarlierLookups(store: Store, data: IncidentData, id: string, now: int, other: string)
    requires HasId(store, other)
    ensures GetIncidentById(CreateIncident(store, data, id, now).store, other)
         == GetIncidentById(store, other)
  {
    var s' := CreateIncident(store, data, id, now).store;
    var r, r' := GetIncidentById(store, other), GetIncidentById(s', other);
    assert forall j :: 0 <= j < |store| ==> s'[j] == store[j];
    var k :| IsFirstWithId(store, other, k) && store[k] == r.value;
    assert HasId(s', other) by {
      assert s'[k] == store[k];
    }
    var k' :| IsFirstWithId(s', other, k') && s'[k'] == r'.value;
    assert IsFirstWithId(s', other, k);
    assert k' == k;
  }

  /** After clearing, nothing is listed and no id is found. */
  lemma ClearEmptiesStore(store: Store, id: string)
    ensures GetAllIncidents(ClearIncidents(store)) == []
    ensures GetIncidentById(ClearIncidents(store), id) == None
  {
  }
}
