/** Best-match selection over a candidate list, with the similarity metric
    left abstract: the scorer is a parameter returning a score in 0..100. */
module FuzzyMatch {

  type Score = s: int | 0 <= s <= 100

  /** The string-similarity metric, applied as `score(query, candidate)`. */
  type Scorer = (string, string) -> Score

  /** A best match scoring below this is rejected. */
  const Threshold: int := 60

  /** Position `i` holds a highest-scoring candidate, and no earlier position
      scores as high. */
  ghost predicate IsFirstBest(score: Scorer, query: string, names: seq<string>, i: nat)
  {
    && i < |names|
    && (forall j | 0 <= j < |names| :: score(query, names[j]) <= score(query, names[i]))
    && (forall j | 0 <= j < i :: score(query, names[j]) < score(query, names[i]))
  }

  /** Every candidate scores below the threshold against `query`. */
  predicate AllBelowThreshold(score: Scorer, query: string, names: seq<string>)
  {
    forall j | 0 <= j < |names| :: score(query, names[j]) < Threshold
  }

  /** The candidate the fuzzy matcher picks: the first one of highest score. */
  function BestIndex(score: Scorer, query: string, names: seq<string>): (i: nat)
    requires names != []
    ensures IsFirstBest(score, query, names, i)
    decreases |names|
  {
    if |names| == 1 then 0
    else
      var front := names[..|names| - 1];
      var k := BestIndex(score, query, front);
      assert forall j | 0 <= j < |front| :: front[j] == names[j];
      if score(query, names[|names| - 1]) > score(query, names[k]) then |names| - 1 else k
  }

  /** The outcome of matching one query against the candidates. */
  datatype Resolution =
    | Accepted(name: string, score: Score)
    | Rejected(query: string)
    | EmptyCandidates

  /** `extractOne` followed by the threshold test: rejected exactly when every
      candidate scores below the threshold; otherwise the first best candidate
      is accepted with its score. With no candidate at all, `extractOne`
      returns nothing and the caller's unpacking raises: `EmptyCandidates`. */
  function Resolve(score: Scorer, query: string, names: seq<string>): (r: Resolution)
    ensures r.EmptyCandidates? <==> names == []
    ensures r.Rejected? <==> names != [] && AllBelowThreshold(score, query, names)
    ensures r.Rejected? ==> r.query == query
    ensures r.Accepted? ==>
      && r.name in names
      && r.score == score(query, r.name) >= Threshold
      && IsFirstBest(score, query, names, IndexOf(names, r.name))
  {
    if names == [] then EmptyCandidates
    else
      var i := BestIndex(score, query, names);
      var best := names[i];
      if score(query, best) < Threshold then Rejected(query)
      else
        assert IndexOf(names, best) == i by {
          var k := IndexOf(names, best);
          assert score(query, names[k]) == score(query, names[i]);
        }
        Accepted(best, score(query, best))
  }

  /** `names.index(s)`: the first position holding `s`. */
  function IndexOf(names: seq<string>, s: string): (i: nat)
    requires s in names
    ensures i < |names| && names[i] == s
    ensures s !in names[..i]
  {
    if names[0] == s then 0
    else
      var i := 1 + IndexOf(names[1..], s);
      assert names[..i] == [names[0]] + names[1..][..i - 1];
      i
  }
}
