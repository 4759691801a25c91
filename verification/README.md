# Incident memory retrieval — a Dafny model

This project models the retrieval path of the incident-autopilot server. It also proves properties of the model.

The server records resolved incidents in an in-memory store. Each record carries a description, a service tag, an environment tag, a root-cause summary, an optional patch diff and an embedding vector. When a new error is diagnosed, the server takes these steps:

1. It embeds the text "description | service | environment".
2. It keeps only the stored records whose `service` and `environment` match the query exactly.
3. It scores each remaining record by cosine similarity against the query embedding.
4. It sorts the records by score, highest first, and keeps the top three.
5. It turns the top match into a suggested fix. The fix has a confidence tier: `high` above 0.9, `medium` above 0.7, `low` otherwise.

With no match at all, the server gives a cold-start reply instead.

Modules, one per source file:

| module | file | source |
|---|---|---|
| `Wrappers` | `wrappers.dfy` | `Option` and the truthiness test for request fields |
| `Similarity` | `similarity.dfy` | `server/utils/similarity.ts` |
| `Incidents` | `incident.dfy` | `server/models/incident.ts` |
| `Retrieval` | `retrieval.dfy` | `server/utils/retrieval.ts` |
| `Diagnose` | `diagnose_handler.dfy` | `server/handlers/diagnoseHandler.ts` |
| `IncidentHandler` | `incident_handler.dfy` | `server/handlers/incidentHandler.ts` |
| `EndToEnd` | `end_to_end.dfy` | ingestion followed by diagnosis |

Modelling choices:

- **The store.** The module-level `incidents` array is a value of type `Store = seq<Incident>`. The operations that change the store (`CreateIncident`, `ClearIncidents`, `PostIncident`) return the new store; the others take it as an argument.
- **The embedder.** `embedText` is passed in as a parameter `embed: string -> seq<real>`. The handlers import it, but `server/utils/embedding.ts` only exports the asynchronous, network-bound `generateIncidentEmbedding`.
- **Square root.** `Math.sqrt` is passed in as a parameter `sqrt: real -> real`. Dafny's reals have no square root. The similarity function works for any `sqrt`. Lemmas that need its meaning require `IsSqrt(sqrt)`: for every `x >= 0`, `sqrt(x) >= 0` and `sqrt(x) * sqrt(x) == x`.
- **Identifier and clock.** `randomUUID()` and `Date.now()` become the parameters `id` and `now`. `createIncident` itself demands nothing of them. The lemmas about finding a record by id require the id to be fresh.
- **Request fields.** Each field is an `Option<string>`. A field passes the handlers' `!field` test when it is present and non-empty (`Wrappers.Truthy`).
- **Responses.** Each handler returns a datatype with one constructor per reply. A `Status` function maps each reply to its HTTP status.
- **Numbers.** Vectors and scores are `real`. The dot product and the sums of squares are left folds from 0, as `reduce` computes them.

Behaviour of the code worth knowing:

- **Empty patch diff.** The code writes `top.patchDiff || placeholder`. So a stored empty patch diff gives the placeholder, not the empty string.
- **Cold-start reply.** It carries no `patchDiffDraft` at all.
- **Id and timestamp.** `createIncident` always assigns a new id and timestamp, even when the payload already has them. The payload type has neither field.
- **Two embedded texts.** The query text joins three fields (server/handlers/diagnoseHandler.ts:17-19); the ingestion text joins four (server/handlers/incidentHandler.ts:18-23). Both use the separator `" | "`, defined once as `Incidents.Separator`. `EndToEnd.QueryTextIsPrefixOfEmbeddingInput` states the exact relation: the query text plus `" | " + rootCauseSummary` is the ingestion text.
- **Vector dimension.** The code never checks or enforces a vector dimension. A length mismatch only makes the similarity 0.

## Model

| member | source | states |
|---|---|---|
| `Similarity.CosineSimilarity` | server/utils/similarity.ts:3-9 | vectors of different lengths score exactly 0; a zero-magnitude vector (including two empty vectors) scores 0 rather than dividing by zero; when the lengths agree and both magnitudes are non-zero, the score times both magnitudes is the dot product, i.e. the score is dot / (magA * magB) |
| `Similarity.CosineCommutes` | server/utils/similarity.ts:4-8 | similarity is symmetric: swapping the two vectors gives the same score, for every pair |
| `Similarity.CosineSelf` | server/utils/similarity.ts:5-8 | a vector with a non-zero component has similarity exactly 1 with itself |
| `Similarity.CosineBounded` | server/utils/similarity.ts:1-8 | every score lies in [-1, 1] (by Cauchy–Schwarz) |
| `Similarity.SelfIsMostSimilar` | server/utils/similarity.ts:5-8 | no vector scores higher against a non-zero vector than that vector itself |
| `Similarity.ZeroMagnitudeIff` | server/utils/similarity.ts:6-8 | the zero-magnitude guard fires exactly for all-zero vectors, the empty vector included |
| `Similarity.CauchySchwarz` | server/utils/similarity.ts:5-7 | the squared dot product never exceeds the product of the two sums of squares |
| `Similarity.DotCommutes` | server/utils/similarity.ts:5 | the dot product does not depend on argument order |
| `Retrieval.FilterByTags` | server/utils/retrieval.ts:12-14 | a record is kept exactly when it is in the store and carries both query tags; the result is no longer than the store |
| `Retrieval.FilterCounts` | server/utils/retrieval.ts:12-14 | each record carrying both tags is kept exactly as often as it occurs in the store, and every other record zero times |
| `Retrieval.SortBySimilarity` | server/utils/retrieval.ts:21 | the sort returns a permutation of its input ordered by score, highest first |
| `Retrieval.FindSimilarIncidents` | server/utils/retrieval.ts:6-22 | the result has min(3, number of scored candidates) entries (one candidate per tagged record) and is sorted by score, highest first; it is a sub-multiset of the scored tagged records; each entry is a store record with both tags, paired with its own cosine similarity to the query; every scored candidate left out scores no higher than the last entry |
| `Retrieval.NoMatchesIffNoTaggedRecord` | server/utils/retrieval.ts:12-21 | the result is empty exactly when no stored record carries both tags |
| `Retrieval.EveryTaggedRecordRankedOrOutscored` | server/utils/retrieval.ts:12-21 | top-3 correctness per record: each tagged record is returned with its score, or scores no higher than the last returned match |
| `Retrieval.FirstMatchIsBest` | server/utils/retrieval.ts:21 | the first match scores at least as high as every stored record carrying both tags |
| `Retrieval.FewCandidatesAllReturned` | server/utils/retrieval.ts:21 | with at most three tagged records, truncation removes nothing: the result is the whole sorted candidate list, a permutation of all scored candidates |
| `Retrieval.CandidatesAreScoredMatches` | server/utils/retrieval.ts:12-19 | every scored candidate is a store record with both tags, carrying its own cosine similarity |
| `Diagnose.ConfidenceTier` | server/handlers/diagnoseHandler.ts:46 | high exactly above 0.9, medium exactly in (0.7, 0.9], low exactly at or below 0.7 |
| `Diagnose.ConfidenceMonotone` | server/handlers/diagnoseHandler.ts:46 | a higher similarity never gives a lower tier, in the order low < medium < high |
| `Diagnose.ConfidenceBoundaries` | server/handlers/diagnoseHandler.ts:46 | 0.95 is high; 0.9 and 0.8 are medium; 0.7 and 0.5 are low |
| `Diagnose.PatchDraft` | server/handlers/diagnoseHandler.ts:42-44 | the draft is the stored patch when it is present and non-empty, otherwise the fixed placeholder; it is never empty |
| `Diagnose.DiagnoseIncident` | server/handlers/diagnoseHandler.ts:8-49 | status 400, with the fixed error text, exactly when a field is missing or empty. The cold-start reply comes exactly when the fields are valid and no stored record carries both tags; it has the fixed message, a low-confidence manual summary and no draft. Otherwise the reply carries the 1 to 3 ranked matches for the embedding of the three-field query text, unchanged. Its fix takes the top match's root cause as summary, the tier of the top score as confidence, and the top match's patch or the placeholder as draft |
| `Diagnose.InvalidRequestTouchesNothing` | server/handlers/diagnoseHandler.ts:10-15 | a request missing a field gets the same 400 reply whatever the store, embedder or square root, so no retrieval affects it |
| `Diagnose.DiagnosisUsesBestRecord` | server/handlers/diagnoseHandler.ts:20-47 | when a stored record carries the query's tags the reply is a diagnosis; its top score is at least that record's score, and its confidence is at least that record's tier |
| `Incidents.CreateIncident` | server/models/incident.ts:19-29 | appends exactly one record at the end and leaves earlier records unchanged; the returned record is the last one stored; it carries the supplied id and timestamp, and its payload is the input data |
| `Incidents.CreateThenList` | server/models/incident.ts:27-34 | after a creation, listing the store gives the previous listing followed by the new record, in insertion order |
| `Incidents.GetIncidentById` | server/models/incident.ts:37-39 | the lookup finds nothing exactly when no record has the id; otherwise it returns the record at the first position holding the id |
| `Incidents.CreateThenFind` | server/models/incident.ts:22-39 | a record created under a fresh id is found by that id, with every field as stored |
| `Incidents.CreatePreservesUniqueIds` | server/models/incident.ts:22-27 | creating under a fresh id keeps identifiers unique in the store |
| `Incidents.CreateKeepsEarlierLookups` | server/models/incident.ts:27-39 | looking up an id already in the store gives the same result after a creation |
| `Incidents.ClearIncidents` | server/models/incident.ts:42-44 | clearing leaves the store empty |
| `Incidents.ClearEmptiesStore` | server/models/incident.ts:32-44 | after clearing, the listing is empty and no id is found |
| `IncidentHandler.Tags` | server/handlers/incidentHandler.ts:32-35 | the tag map has exactly the keys `service` and `environment`, holding the request's service and environment |
| `IncidentHandler.PostIncident` | server/handlers/incidentHandler.ts:5-38 | status 400, with the fixed error text and an unchanged store, exactly when one of the four required fields is missing or empty. Otherwise the reply is the created record, and the store grows by exactly that record at the end. The record carries the supplied id and time and the five request fields verbatim, `patchDiff` absent when absent. Its embedding is that of `description + " \| " + service + " \| " + environment + " \| " + rootCauseSummary`, and its tags are exactly its service and environment |
| `IncidentHandler.EmbeddingInputIsJoin` | server/handlers/incidentHandler.ts:18-23 | joining the four fields with `" \| "` is the four fields in order with the separator between them |
| `IncidentHandler.PatchDiffIsOptional` | server/handlers/incidentHandler.ts:7-31 | whether a post succeeds does not depend on `patchDiff`, and the stored record carries it as given |
| `IncidentHandler.PostThenList` | server/handlers/incidentHandler.ts:45-48 | the listing after a post is the previous listing plus the created record, or unchanged when the post was rejected |
| `IncidentHandler.PostThenFind` | server/handlers/incidentHandler.ts:25-38 | a valid post under a fresh id succeeds, and the record it returns is what a lookup by that id finds |
| `EndToEnd.QueryTextIsPrefixOfEmbeddingInput` | server/handlers/diagnoseHandler.ts:17-19 | the query text is the ingestion text minus `" \| " + rootCauseSummary`, so the two are never equal |
| `EndToEnd.PostedIncidentIsDiagnosed` | server/handlers/diagnoseHandler.ts:21-49 | after posting a record for a (service, environment) pair with no history, any diagnosis for that pair has exactly that record as its one match. The fix summary is the posted root cause, and the draft is the posted patch, or the placeholder when the patch is absent or empty |
| `EndToEnd.UnknownServiceIsColdStart` | server/handlers/diagnoseHandler.ts:28-37 | a diagnosis for a service no stored record belongs to gets the cold-start reply, with low confidence and no draft |

## Left out

- Floating point: IEEE-754 rounding, NaN and Infinity are not modelled. Vectors and scores are exact reals, and a NaN magnitude, which JavaScript treats as falsy, cannot arise.
- `Math.sqrt` is the parameter `sqrt`, because Dafny's reals have no square root. The lemmas about bounds and self-similarity assume `IsSqrt(sqrt)`.
- `embedText` is the parameter `embed` and always returns a vector. The network call, its failures and the dimension warning in `server/utils/embedding.ts` are not part of this model.
- The `catch` branches that reply 500 `internal_error` are left out. Nothing in the model can throw, since the embedder is total.
- Request fields that are JSON values other than strings are left out. A non-string truthy value would pass validation and be turned into a string by the template literal. The model only has absent fields and strings.
- Express framing is left out: `req`/`res`, `.json()`, and the fact that the listing is returned with status 200 by default.
- `Retrieval.SortBySimilarity`: among equal scores it keeps the earlier record first, like a stable sort. The contracts of `FindSimilarIncidents` do not depend on that order.
- `Incidents.GetAllIncidents` and `IncidentHandler.ListIncidents` return a value copy of the store, not the live array. They carry no contract of their own. Their behaviour is stated by `CreateThenList` and `PostThenList`.
- `Incidents.CreateIncident` does not model stray `id` or `timestamp` keys in its argument being overridden by the spread, because the argument type has no such fields.
- Concurrency and locking are left out: the server is single-threaded and takes no locks.
- The GitHub integration, patch logging, Redis index creation, git-remote inspection, routes, the server entry point and the editor extension are not part of this model.
