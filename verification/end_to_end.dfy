/** Properties of the ingestion and diagnosis paths taken together: a record
    posted through `postIncident` is what a later `diagnoseIncident` for the
    same tags finds, and the query text relates to the ingestion text. */
module EndToEnd {
  import opened Wrappers
  import opened Similarity
  import opened Incidents
  import opened Retrieval
  import Diagnose
  import IncidentHandler

  /** The query text is the ingestion text without its last field: a proper
      prefix of it, so the two call sites never embed the same string. */
  lemma QueryTextIsPrefixOfEmbeddingInput(description: string, service: string,
                                          environment: string, rootCauseSummary: string)
    ensures IncidentHandler.EmbeddingInput(description, service, environment, rootCauseSummary)
         == Diagnose.QueryText(description, service, environment) + " | " + rootCauseSummary
    ensures Diagnose.QueryText(description, service, environment)
         != IncidentHandler.EmbeddingInput(description, service, environment, rootCauseSummary)
  {
    IncidentHandler.EmbeddingInputIsJoin(description, service, environment, rootCauseSummary);
    var q := Diagnose.QueryText(description, service, environment);
    var e := IncidentHandler.EmbeddingInput(description, service, environment, rootCauseSummary);
    assert |e| == |q| + 3 + |rootCauseSummary|;
  }

  /** Filtering a store extended by one record extends the filtered records
      by that record when it carries the tags. */
  lemma FilterAppend(store: Store, inc: Incident, service: string, environment: string)
    ensures FilterByTags(store + [inc], service, environment)
         == FilterByTags(store, service, environment)
            + (if HasTags(inc, service, environment) then [inc] else [])
  {
    assert (store + [inc])[..|store|] == store;
  }

  /** No record of the store carries the tags: nothing survives the filter. */
  lemma FilterNone(store: Store, service: string, environment: string)
    requires forall inc :: inc in store ==> !HasTags(inc, service, environment)
    ensures FilterByTags(store, service, environment) == []
  {
  }

  /** A record posted for a (service, environment) pair that had no history
      is the single match of any later diagnosis for that pair: its root
      cause becomes the summary and its stored patch the draft. */
  lemma PostedIncidentIsDiagnosed(post: IncidentHandler.IncidentRequest, store: Store,
                                  embed: string -> seq<real>, sqrt: real -> real,
                                  id: string, now: int, description: string)
    requires IncidentHandler.IsValid(post)
    requires forall inc :: inc in store ==> !HasTags(inc, post.service.value, post.environment.value)
    requires |description| > 0
    ensures var out := IncidentHandler.PostIncident(post, store, embed, id, now);
            var query := Diagnose.DiagnoseRequest(Some(description), post.service, post.environment);
            var response := Diagnose.DiagnoseIncident(query, out.store, embed, sqrt);
            && out.response.Created?
            && response.Diagnosis?
            && |response.matches| == 1
            && response.matches[0].incident == out.response.incident
            && response.suggestedFix.summary == post.rootCauseSummary.value
            && response.suggestedFix.patchDiffDraft
               == Some(if Truthy(post.patchDiff) then post.patchDiff.value else Diagnose.PlaceholderPatch)
  {
    var out := IncidentHandler.PostIncident(post, store, embed, id, now);
    var a := out.response.incident;
    var service, environment := post.service.value, post.environment.value;
    var qv := embed(Diagnose.QueryText(description, service, environment));
    assert out.response.Created? && out.store == store + [a];
    assert HasTags(a, service, environment);
    FilterNone(store, service, environment);
    FilterAppend(store, a, service, environment);
    SingleCandidate(sqrt, qv, service, environment, out.store, a);
    var query := Diagnose.DiagnoseRequest(Some(description), post.service, post.environment);
    var matches := Diagnose.MatchesFor(query, out.store, embed, sqrt);
    assert matches == [Score(sqrt, qv, a)];
    var response := Diagnose.DiagnoseIncident(query, out.store, embed, sqrt);
    assert response == Diagnose.Diagnosis(matches, Diagnose.SuggestFix(matches[0]));
    assert a.rootCauseSummary == post.rootCauseSummary.value && a.patchDiff == post.patchDiff;
  }

  /** With a single record carrying the tags, that record is the whole
      result. */
  lemma SingleCandidate(sqrt: real -> real, query: seq<real>, service: string, environment: string,
                        all: seq<Incident>, a: Incident)
    requires FilterByTags(all, service, environment) == [a]
    ensures FindSimilarIncidents(sqrt, query, service, environment, all) == [Score(sqrt, query, a)]
  {
    var matches := FindSimilarIncidents(sqrt, query, service, environment, all);
    assert Candidates(sqrt, query, service, environment, all) == [Score(sqrt, query, a)];
    assert |matches| == 1;
    assert matches[0] in multiset(matches);
    assert matches == [matches[0]];
  }

  /** A diagnosis for a service no stored record belongs to is the cold
      start reply: no matches, the manual-investigation summary, low
      confidence and no draft patch. */
  lemma UnknownServiceIsColdStart(store: Store, embed: string -> seq<real>, sqrt: real -> real,
                                  description: string, service: string, environment: string)
    requires |description| > 0 && |service| > 0 && |environment| > 0
    requires forall inc :: inc in store ==> inc.service != service
    ensures var response := Diagnose.DiagnoseIncident(
              Diagnose.DiagnoseRequest(Some(description), Some(service), Some(environment)), store, embed, sqrt);
            && response == Diagnose.NoSimilarIncidents(Diagnose.NoMatchMessage, Diagnose.ColdStartFix)
            && response.suggestedFix.confidence == Diagnose.Low
            && response.suggestedFix.patchDiffDraft.None?
  {
  }
}
