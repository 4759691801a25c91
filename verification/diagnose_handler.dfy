/** The diagnosis request handler (server/handlers/diagnoseHandler.ts):
    validates the request, embeds the three-field query text, ranks the
    stored incidents against it and turns the top match into a suggested
    fix with a confidence tier.

    The embedder `embedText` is the capability `embed`; `Math.sqrt` is the
    capability `sqrt` (see module Similarity). */
module Diagnose {
  import opened Wrappers
  import opened Similarity
  import opened Incidents
  import opened Retrieval

  datatype Confidence = Low | Medium | High

  /** The order low < medium < high. */
  function Rank(c: Confidence): nat {
    match c
    case Low => 0
    case Medium => 1
    case High => 2
  }

  /** `similarity > 0.9 ? "high" : similarity > 0.7 ? "medium" : "low"`. */
  function ConfidenceTier(similarity: real): (c: Confidence)
    ensures c == High <==> similarity > 0.9
    ensures c == Medium <==> 0.7 < similarity <= 0.9
    ensures c == Low <==> similarity <= 0.7
  {
    if similarity > 0.9 then High
    else if similarity > 0.7 then Medium
    else Low
  }

  datatype SuggestedFix = SuggestedFix(summary: string, patchDiffDraft: Option<string>, confidence: Confidence)

  /** The request body; each field may be absent. */
  datatype DiagnoseRequest = DiagnoseRequest(
    description: Option<string>,
    service: Option<string>,
    environment: Option<string>)

  /** The three replies of the handler. */
  datatype DiagnoseResponse =
    | MissingFields(error: string)
    | NoSimilarIncidents(message: string, suggestedFix: SuggestedFix)
    | Diagnosis(matches: seq<Match>, suggestedFix: SuggestedFix)

  function Status(response: DiagnoseResponse): int {
    if response.MissingFields? then 400 else 200
  }

  const RequiredFieldsError := "description, service, environment are required"
  const NoMatchMessage := "No similar incidents found yet. Might be a new error."
  const NoMatchSummary := "No prior fixes — developer may need to investigate manually and add this after resolution."
  const PlaceholderPatch := "// placeholder: add null guard or condition similar to previous patch"

  /** The cold-start fix: a manual-investigation summary, no draft patch,
      low confidence. */
  const ColdStartFix := SuggestedFix(NoMatchSummary, None, Low)

  predicate IsValid(req: DiagnoseRequest) {
    Truthy(req.description) && Truthy(req.service) && Truthy(req.environment)
  }

  /** The text embedded for a query: description, service and environment
      joined by `Separator`. */
  function QueryText(description: string, service: string, environment: string): string {
    description + Separator + service + Separator + environment
  }

  /** `top.patchDiff || placeholder`: the stored patch when it is present and
      non-empty, the placeholder otherwise. */
  function PatchDraft(patchDiff: Option<string>): (draft: string)
    ensures Truthy(patchDiff) ==> draft == patchDiff.value
    ensures !Truthy(patchDiff) ==> draft == PlaceholderPatch
    ensures |draft| > 0
  {
    if Truthy(patchDiff) then patchDiff.value else PlaceholderPatch
  }

  /** The fix suggested by the top match. */
  function SuggestFix(top: Match): SuggestedFix {
    SuggestedFix(top.incident.rootCauseSummary,
                 Some(PatchDraft(top.incident.patchDiff)),
                 ConfidenceTier(top.similarity))
  }

  /** The ranked matches for a valid request. */
  function MatchesFor(req: DiagnoseRequest, store: Store, embed: string -> seq<real>, sqrt: real -> real): seq<Match>
    requires IsValid(req)
  {
    var description, service, environment := req.description.value, req.service.value, req.environment.value;
    FindSimilarIncidents(sqrt, embed(QueryText(description, service, environment)), service, environment, store)
  }

  /** `diagnoseIncident`. */
  function DiagnoseIncident(req: DiagnoseRequest, store: Store, embed: string -> seq<real>,
                            sqrt: real -> real): (response: DiagnoseResponse)
    ensures Status(response) == 400 <==> !IsValid(req)
    ensures response.MissingFields? ==> response.error == RequiredFieldsError
    ensures response.NoSimilarIncidents? <==>
              IsValid(req) && forall inc :: inc in store ==> !HasTags(inc, req.service.value, req.environment.value)
    ensures response.NoSimilarIncidents? ==>
              response.message == NoMatchMessage && response.suggestedFix == ColdStartFix
    ensures response.Diagnosis? ==>
              && IsValid(req)
              && response.matches == MatchesFor(req, store, embed, sqrt)
              && 0 < |response.matches| <= Limit
              && response.suggestedFix.summary == response.matches[0].incident.rootCauseSummary
              && response.suggestedFix.confidence == ConfidenceTier(response.matches[0].similarity)
              && response.suggestedFix.patchDiffDraft == Some(PatchDraft(response.matches[0].incident.patchDiff))
  {
    if !IsValid(req) then MissingFields(RequiredFieldsError)
    else
      var matches := MatchesFor(req, store, embed, sqrt);
      NoMatchesIffNoTaggedRecord(sqrt, embed(QueryText(req.description.value, req.service.value, req.environment.value)),
                                 req.service.value, req.environment.value, store);
      if |matches| == 0 then NoSimilarIncidents(NoMatchMessage, ColdStartFix)
      else Diagnosis(matches, SuggestFix(matches[0]))
  }

  /** Confidence never decreases as the similarity grows. */
  lemma ConfidenceMonotone(s1: real, s2: real)
    requires s1 <= s2
    ensures Rank(ConfidenceTier(s1)) <= Rank(ConfidenceTier(s2))
  {
  }

  /** The tiers at and around the two thresholds: both boundaries belong to
      the lower tier. */
  lemma ConfidenceBoundaries()
    ensures ConfidenceTier(0.95) == High
    ensures ConfidenceTier(0.9) == Medium
    ensures ConfidenceTier(0.8) == Medium
    ensures ConfidenceTier(0.7) == Low
    ensures ConfidenceTier(0.5) == Low
  {
  }

  /** A request missing a field is answered without looking at the store or
      calling the embedder: the reply is the same whatever they are. */
  lemma InvalidRequestTouchesNothing(req: DiagnoseRequest, store1: Store, store2: Store,
                                     embed1: string -> seq<real>, embed2: string -> seq<real>,
                                     sqrt1: real -> real, sqrt2: real -> real)
    requires !IsValid(req)
    ensures DiagnoseIncident(req, store1, embed1, sqrt1) == DiagnoseIncident(req, store2, embed2, sqrt2)
    ensures DiagnoseIncident(req, store1, embed1, sqrt1) == MissingFields(RequiredFieldsError)
  {
  }

  /** The top match is a best-scoring stored record for the query's tags,
      so the confidence tier is that of the best available score. */
  lemma DiagnosisUsesBestRecord(req: DiagnoseRequest, store: Store, embed: string -> seq<real>,
                                sqrt: real -> real, inc: Incident)
    requires IsValid(req)
    requires inc in store && HasTags(inc, req.service.value, req.environment.value)
    ensures var response := DiagnoseIncident(req, store, embed, sqrt);
            var query := embed(QueryText(req.description.value, req.service.value, req.environment.value));
            && response.Diagnosis?
            && CosineSimilarity(sqrt, query, inc.embedding) <= response.matches[0].similarity
            && Rank(ConfidenceTier(CosineSimilarity(sqrt, query, inc.embedding)))
               <= Rank(response.suggestedFix.confidence)
  {
    var query := embed(QueryText(req.description.value, req.service.value, req.environment.value));
    FirstMatchIsBest(sqrt, query, req.service.value, req.environment.value, store, inc);
    var response := DiagnoseIncident(req, store, embed, sqrt);
    ConfidenceMonotone(CosineSimilarity(sqrt, query, inc.embedding), response.matches[0].similarity);
  }
}
