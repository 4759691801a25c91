/** The incident ingestion and listing handlers
    (server/handlers/incidentHandler.ts).

    The embedder `embedText` is the capability `embed`; the fresh identifier
    and the clock reading used by `createIncident` are the parameters `id`
    and `now`. */
module IncidentHandler {
  import opened Wrappers
  import opened Incidents

  /** The request body of `postIncident`; each field may be absent. */
  datatype IncidentRequest = IncidentRequest(
    description: Option<string>,
    service: Option<string>,
    environment: Option<string>,
    rootCauseSummary: Option<string>,
    patchDiff: Option<string>)

  datatype PostResponse =
    | MissingFields(error: string)
    | Created(incident: Incident)

  function Status(response: PostResponse): int {
    if response.MissingFields? then 400 else 201
  }

  /** The reply together with the store after the request. */
  datatype PostOutcome = PostOutcome(response: PostResponse, store: Store)

  const RequiredFieldsError := "description, service, environment, rootCauseSummary are required"

  predicate IsValid(req: IncidentRequest) {
    Truthy(req.description) && Truthy(req.service) && Truthy(req.environment) && Truthy(req.rootCauseSummary)
  }

  /** `parts.join(separator)`. */
  function Join(parts: seq<string>, separator: string): string {
    if |parts| == 0 then ""
    else if |parts| == 1 then parts[0]
    else parts[0] + separator + Join(parts[1..], separator)
  }

  /** The canonical embedding input of a record: its four text fields
      joined by " | ". */
  function EmbeddingInput(description: string, service: string, environment: string,
                          rootCauseSummary: string): string {
    Join([description, service, environment, rootCauseSummary], Separator)
  }

  /** The tag map `{ service, environment }`. */
  function Tags(service: string, environment: string): (tags: map<string, string>)
    ensures tags.Keys == {"service", "environment"}
    ensures tags["service"] == service && tags["environment"] == environment
  {
    map["service" := service, "environment" := environment]
  }

  /** The payload handed to `createIncident` for a valid request. */
  function RequestPayload(req: IncidentRequest, embed: string -> seq<real>): IncidentData
    requires IsValid(req)
  {
    var description, service, environment, rootCauseSummary :=
      req.description.value, req.service.value, req.environment.value, req.rootCauseSummary.value;
    IncidentData(description, service, environment, rootCauseSummary, req.patchDiff,
                 embed(EmbeddingInput(description, service, environment, rootCauseSummary)),
                 Tags(service, environment))
  }

  /** `postIncident`. */
  function PostIncident(req: IncidentRequest, store: Store, embed: string -> seq<real>,
                        id: string, now: int): (out: PostOutcome)
    ensures Status(out.response) == 400 <==> !IsValid(req)
    ensures out.response.MissingFields? ==>
              out.response.error == RequiredFieldsError && out.store == store
    ensures out.response.Created? ==>
              var inc := out.response.incident;
              && out.store == store + [inc]
              && inc.id == id && inc.timestamp == now
              && Some(inc.description) == req.description
              && Some(inc.service) == req.service
              && Some(inc.environment) == req.environment
              && Some(inc.rootCauseSummary) == req.rootCauseSummary
              && inc.patchDiff == req.patchDiff
              && inc.embedding == embed(inc.description + " | " + inc.service + " | "
                                        + inc.environment + " | " + inc.rootCauseSummary)
              && inc.tags.Keys == {"service", "environment"}
              && inc.tags["service"] == inc.service && inc.tags["environment"] == inc.environment
  {
    if !IsValid(req) then PostOutcome(MissingFields(RequiredFieldsError), store)
    else
      var c := CreateIncident(store, RequestPayload(req, embed), id, now);
      EmbeddingInputIsJoin(req.description.value, req.service.value, req.environment.value,
                           req.rootCauseSummary.value);
      PostOutcome(Created(c.incident), c.store)
  }

  /** `listIncidentsHandler`. */
  function ListIncidents(store: Store): Store {
    GetAllIncidents(store)
  }

  /** The join of four parts spelled out: the fields in order, separated by
      " | ". */
  lemma EmbeddingInputIsJoin(description: string, service: string, environment: string,
                             rootCauseSummary: string)
    ensures EmbeddingInput(description, service, environment, rootCauseSummary)
         == description + " | " + service + " | " + environment + " | " + rootCauseSummary
  {
    var parts := [description, service, environment, rootCauseSummary];
    assert parts[1..] == [service, environment, rootCauseSummary];
    assert [service, environment, rootCauseSummary][1..] == [environment, rootCauseSummary];
    assert [environment, rootCauseSummary][1..] == [rootCauseSummary];
    assert Join([rootCauseSummary], Separator) == rootCauseSummary;
    var tail2 := Join([environment, rootCauseSummary], Separator);
    assert tail2 == environment + Separator + rootCauseSummary;
    var tail3 := Join([service, environment, rootCauseSummary], Separator);
    assert tail3 == service + Separator + tail2;
  }

  /** `patchDiff` is optional: whether a request succeeds does not depend on
      it, and the stored record carries it as given. */
  lemma PatchDiffIsOptional(req: IncidentRequest, store: Store, embed: string -> seq<real>,
                            id: string, now: int, patchDiff: Option<string>)
    ensures PostIncident(req.(patchDiff := patchDiff), store, embed, id, now).response.Created?
        <==> PostIncident(req, store, embed, id, now).response.Created?
    ensures PostIncident(req.(patchDiff := patchDiff), store, embed, id, now).response.Created? ==>
              PostIncident(req.(patchDiff := patchDiff), store, embed, id, now).response.incident.patchDiff
              == patchDiff
  {
  }

  /** After a successful post the listing is the previous listing followed
      by the created record; after a rejected one it is unchanged. */
  lemma PostThenList(req: IncidentRequest, store: Store, embed: string -> seq<real>, id: string, now: int)
    ensures var out := PostIncident(req, store, embed, id, now);
            ListIncidents(out.store)
            == if out.response.Created? then ListIncidents(store) + [out.response.incident]
               else ListIncidents(store)
  {
  }

  /** A record posted under a fresh id can be fetched by that id, and every
      field comes back as stored. */
  lemma PostThenFind(req: IncidentRequest, store: Store, embed: string -> seq<real>, id: string, now: int)
    requires IsValid(req) && !HasId(store, id)
    ensures var out := PostIncident(req, store, embed, id, now);
            out.response.Created? && GetIncidentById(out.store, id) == Some(out.response.incident)
  {
    CreateThenFind(store, RequestPayload(req, embed), id, now);
  }
}
