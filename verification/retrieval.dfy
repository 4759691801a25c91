/** Metadata-filtered similarity ranking (server/utils/retrieval.ts).

    `findSimilarIncidents` keeps the records whose `service` and
    `environment` equal the query's, scores each by cosine similarity against
    the query embedding, sorts by score, highest first, and keeps the first
    three. */
module Retrieval {
  import opened Wrappers
  import opened Similarity
  import opened Incidents

  /** How many matches a query returns at most (`.slice(0, 3)`). */
  const Limit: nat := 3

  function Min(a: int, b: int): (m: int)
    ensures m <= a && m <= b
    ensures m == a || m == b
  {
    if a <= b then a else b
  }

  /** A record together with its score, `{...inc, similarity}`. */
  datatype Match = Match(incident: Incident, similarity: real)

  predicate HasTags(inc: Incident, service: string, environment: string) {
    inc.service == service && inc.environment == environment
  }

  /** `allIncidents.filter(...)`: the records carrying both tags, in order.
      A record is kept exactly when it is in the store and carries both
      tags; `FilterCounts` adds that it is kept as often as it occurs. */
  function FilterByTags(all: seq<Incident>, service: string, environment: string): (r: seq<Incident>)
    ensures |r| <= |all|
    ensures forall i :: 0 <= i < |r| ==> HasTags(r[i], service, environment) && r[i] in all
    ensures forall inc :: inc in all && HasTags(inc, service, environment) ==> inc in r
  {
    if |all| == 0 then []
    else
      var init := all[..|all| - 1];
      var last := all[|all| - 1];
      assert all == init + [last];
      FilterByTags(init, service, environment)
        + (if HasTags(last, service, environment) then [last] else [])
  }

  /** The filter keeps every record carrying both tags as often as it occurs
      in the store, and no other record. */
  lemma {:induction false} FilterCounts(all: seq<Incident>, service: string, environment: string, inc: Incident)
    ensures multiset(FilterByTags(all, service, environment))[inc]
         == if HasTags(inc, service, environment) then multiset(all)[inc] else 0
  {
    if |all| > 0 {
      var init := all[..|all| - 1];
      var last := all[|all| - 1];
      assert all == init + [last];
      FilterCounts(init, service, environment, inc);
    }
  }

  /** The score of one record against the query embedding. */
  function Score(sqrt: real -> real, query: seq<real>, inc: Incident): Match {
    Match(inc, CosineSimilarity(sqrt, query, inc.embedding))
  }

  /** `filtered.map(...)`: every record paired with its score. */
  function ScoreAll(sqrt: real -> real, query: seq<real>, incs: seq<Incident>): (r: seq<Match>)
    ensures |r| == |incs|
    ensures forall i :: 0 <= i < |r| ==> r[i] == Score(sqrt, query, incs[i])
  {
    seq(|incs|, i requires 0 <= i < |incs| => Score(sqrt, query, incs[i]))
  }

  /** Scores never increase along the sequence. */
  ghost predicate SortedBySimilarity(s: seq<Match>) {
    forall i, j :: 0 <= i < j < |s| ==> s[i].similarity >= s[j].similarity
  }

  /** Inserts `m` in front of the first entry it is at least as similar as. */
  function Insert(m: Match, s: seq<Match>): (r: seq<Match>)
    requires SortedBySimilarity(s)
    ensures SortedBySimilarity(r)
    ensures multiset(r) == multiset(s) + multiset{m}
  {
    if |s| == 0 then [m]
    else if m.similarity >= s[0].similarity then [m] + s
    else
      var rest := Insert(m, s[1..]);
      assert s == [s[0]] + s[1..];
      PrependHead(s[0], s[1..], m, rest);
      [s[0]] + rest
  }

  /** Putting `head` in front of a sorted permutation of `tail + [m]` keeps it
      sorted when `head` scores at least as high as `m` and all of `tail`. */
  lemma PrependHead(head: Match, tail: seq<Match>, m: Match, rest: seq<Match>)
    requires SortedBySimilarity([head] + tail)
    requires m.similarity <= head.similarity
    requires SortedBySimilarity(rest)
    requires multiset(rest) == multiset(tail) + multiset{m}
    ensures SortedBySimilarity([head] + rest)
  {
    forall k | 0 <= k < |rest|
      ensures rest[k].similarity <= head.similarity
    {
      assert rest[k] in multiset(rest);
      if rest[k] != m {
        assert rest[k] in tail;
        var j :| 0 <= j < |tail| && tail[j] == rest[k];
        var all := [head] + tail;
        assert all[0] == head && all[j + 1] == rest[k];
        assert all[0].similarity >= all[j + 1].similarity;
      }
    }
  }

  /** `scored.sort((a, b) => b.similarity - a.similarity)`: a permutation of
      `s` ordered by similarity, highest first. Among equal scores the
      earlier entry stays first, as in a stable sort. */
  function SortBySimilarity(s: seq<Match>): (r: seq<Match>)
    ensures SortedBySimilarity(r)
    ensures multiset(r) == multiset(s)
    ensures |r| == |s|
  {
    if |s| == 0 then []
    else
      assert s == [s[0]] + s[1..];
      Insert(s[0], SortBySimilarity(s[1..]))
  }

  /** Every record carrying both tags, paired with its score, in store order. */
  function Candidates(sqrt: real -> real, query: seq<real>, service: string, environment: string,
                      all: seq<Incident>): seq<Match>
  {
    ScoreAll(sqrt, query, FilterByTags(all, service, environment))
  }

  /** `findSimilarIncidents`. */
  function FindSimilarIncidents(sqrt: real -> real, query: seq<real>, service: string,
                                environment: string, all: seq<Incident>): (r: seq<Match>)
    ensures |r| == Min(Limit, |Candidates(sqrt, query, service, environment, all)|)
    ensures SortedBySimilarity(r)
    ensures multiset(r) <= multiset(Candidates(sqrt, query, service, environment, all))
    ensures forall i :: 0 <= i < |r| ==>
              && HasTags(r[i].incident, service, environment)
              && r[i].incident in all
              && r[i].similarity == CosineSimilarity(sqrt, query, r[i].incident.embedding)
    ensures |r| > 0 ==>
              forall m :: m in multiset(Candidates(sqrt, query, service, environment, all)) - multiset(r) ==>
                m.similarity <= r[|r| - 1].similarity
  {
    var sorted := SortBySimilarity(Candidates(sqrt, query, service, environment, all));
    var r := sorted[..Min(Limit, |sorted|)];
    RankedPrefix(sqrt, query, service, environment, all, sorted, Min(Limit, |sorted|));
    r
  }

  /** What `FindSimilarIncidents` promises, for any prefix of any sorted
      permutation of the candidates. */
  lemma RankedPrefix(sqrt: real -> real, query: seq<real>, service: string,
                     environment: string, all: seq<Incident>, sorted: seq<Match>, k: nat)
    requires SortedBySimilarity(sorted)
    requires multiset(sorted) == multiset(Candidates(sqrt, query, service, environment, all))
    requires k <= |sorted|
    ensures SortedBySimilarity(sorted[..k])
    ensures multiset(sorted[..k]) <= multiset(Candidates(sqrt, query, service, environment, all))
    ensures forall i :: 0 <= i < k ==>
              && HasTags(sorted[i].incident, service, environment)
              && sorted[i].incident in all
              && sorted[i].similarity == CosineSimilarity(sqrt, query, sorted[i].incident.embedding)
    ensures k > 0 ==>
              forall m :: m in multiset(Candidates(sqrt, query, service, environment, all)) - multiset(sorted[..k]) ==>
                m.similarity <= sorted[k - 1].similarity
  {
    var candidates := Candidates(sqrt, query, service, environment, all);
    TakeBest(sorted, k);
    CandidatesAreScoredMatches(sqrt, query, service, environment, all);
    forall i | 0 <= i < k
      ensures sorted[i] in multiset(candidates)
    {
      assert sorted[i] in multiset(sorted);
    }
  }

  /** A prefix of a sorted sequence is sorted, is contained in it, and scores
      at least as high as everything it leaves out. */
  lemma TakeBest(sorted: seq<Match>, k: nat)
    requires SortedBySimilarity(sorted) && k <= |sorted|
    ensures SortedBySimilarity(sorted[..k])
    ensures multiset(sorted[..k]) <= multiset(sorted)
    ensures k > 0 ==> forall m :: m in multiset(sorted) - multiset(sorted[..k]) ==>
                        m.similarity <= sorted[k - 1].similarity
  {
    assert sorted == sorted[..k] + sorted[k..];
    assert multiset(sorted) == multiset(sorted[..k]) + multiset(sorted[k..]);
    if k > 0 {
      forall m | m in multiset(sorted) - multiset(sorted[..k])
        ensures m.similarity <= sorted[k - 1].similarity
      {
        assert m in sorted[k..];
      }
    }
  }

  /** Every candidate is a record of the store carrying both tags, paired
      with its own cosine similarity to the query. */
  lemma CandidatesAreScoredMatches(sqrt: real -> real, query: seq<real>, service: string,
                                   environment: string, all: seq<Incident>)
    ensures forall m :: m in multiset(Candidates(sqrt, query, service, environment, all)) ==>
              && HasTags(m.incident, service, environment)
              && m.incident in all
              && m.similarity == CosineSimilarity(sqrt, query, m.incident.embedding)
  {
    var filtered := FilterByTags(all, service, environment);
    var candidates := Candidates(sqrt, query, service, environment, all);
    forall m: Match | m in multiset(candidates)
      ensures HasTags(m.incident, service, environment) && m.incident in all
    {
      var i :| 0 <= i < |candidates| && candidates[i] == m;
      assert m.incident == filtered[i];
    }
  }

  /** A tagged record of the store is among the candidates, with its score. */
  lemma TaggedRecordIsCandidate(sqrt: real -> real, query: seq<real>, service: string,
                                environment: string, all: seq<Incident>, inc: Incident)
    requires inc in all && HasTags(inc, service, environment)
    ensures Score(sqrt, query, inc) in multiset(Candidates(sqrt, query, service, environment, all))
  {
    var filtered := FilterByTags(all, service, environment);
    assert inc in filtered;
    var i :| 0 <= i < |filtered| && filtered[i] == inc;
    assert Candidates(sqrt, query, service, environment, all)[i] == Score(sqrt, query, inc);
  }

  /** The result is empty exactly when no record carries both tags. */
  lemma NoMatchesIffNoTaggedRecord(sqrt: real -> real, query: seq<real>, service: string,
                                   environment: string, all: seq<Incident>)
    ensures |FindSimilarIncidents(sqrt, query, service, environment, all)| == 0
        <==> forall inc :: inc in all ==> !HasTags(inc, service, environment)
  {
    var filtered := FilterByTags(all, service, environment);
    if |filtered| > 0 {
      assert filtered[0] in all && HasTags(filtered[0], service, environment);
    }
  }

  /** Top-k: every record carrying both tags is either returned, or scores
      no higher than the last returned match. */
  lemma EveryTaggedRecordRankedOrOutscored(sqrt: real -> real, query: seq<real>, service: string,
                                           environment: string, all: seq<Incident>, inc: Incident)
    requires inc in all && HasTags(inc, service, environment)
    ensures var r := FindSimilarIncidents(sqrt, query, service, environment, all);
            |r| > 0 && (Score(sqrt, query, inc) in r || CosineSimilarity(sqrt, query, inc.embedding) <= r[|r| - 1].similarity)
  {
    var r := FindSimilarIncidents(sqrt, query, service, environment, all);
    NoMatchesIffNoTaggedRecord(sqrt, query, service, environment, all);
    TaggedRecordIsCandidate(sqrt, query, service, environment, all, inc);
    var m := Score(sqrt, query, inc);
    if m !in multiset(r) {
      assert m in multiset(Candidates(sqrt, query, service, environment, all)) - multiset(r);
    }
  }

  /** The first match is a best-scoring record among those carrying both tags. */
  lemma FirstMatchIsBest(sqrt: real -> real, query: seq<real>, service: string,
                         environment: string, all: seq<Incident>, inc: Incident)
    requires inc in all && HasTags(inc, service, environment)
    ensures var r := FindSimilarIncidents(sqrt, query, service, environment, all);
            |r| > 0 && CosineSimilarity(sqrt, query, inc.embedding) <= r[0].similarity
  {
    var r := FindSimilarIncidents(sqrt, query, service, environment, all);
    EveryTaggedRecordRankedOrOutscored(sqrt, query, service, environment, all, inc);
    var m := Score(sqrt, query, inc);
    if m in r {
      var i :| 0 <= i < |r| && r[i] == m;
      assert r[0].similarity >= r[i].similarity;
    } else {
      assert r[0].similarity >= r[|r| - 1].similarity;
    }
  }

  /** With at most three tagged records nothing is cut off: the result is
      the whole sorted candidate list, a permutation of all the candidates. */
  lemma FewCandidatesAllReturned(sqrt: real -> real, query: seq<real>, service: string,
                                 environment: string, all: seq<Incident>)
    requires |FilterByTags(all, service, environment)| <= Limit
    ensures FindSimilarIncidents(sqrt, query, service, environment, all)
         == SortBySimilarity(Candidates(sqrt, query, service, environment, all))
    ensures multiset(FindSimilarIncidents(sqrt, query, service, environment, all))
         == multiset(Candidates(sqrt, query, service, environment, all))
  {
    var candidates := Candidates(sqrt, query, service, environment, all);
    var sorted := SortBySimilarity(candidates);
    assert sorted[..|sorted|] == sorted;
  }
}
