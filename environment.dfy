/** Aggregating the needs of several species into one recommended tank
    environment. */
module Environment {
  import opened Options
  import opened SeqFacts
  import opened Catalog
  import opened FuzzyMatch
  import opened FishLookup
  import opened Averages

  /** The numeric columns that are averaged. */
  datatype Field = TankSize | TempMin | TempMax | PhMin | PhMax

  function FieldOf(row: FishRecord, f: Field): Option<real>
  {
    match f
    case TankSize => row.tankSize
    case TempMin => row.tempMin
    case TempMax => row.tempMax
    case PhMin => row.phMin
    case PhMax => row.phMax
  }

  /** Per-column means over the resolved species (none for a column with no
      number), and the canonical names of those species in input order. */
  datatype Recommendation = Recommendation(
    tankSize: Option<real>,
    tempMin: Option<real>,
    tempMax: Option<real>,
    phMin: Option<real>,
    phMax: Option<real>,
    includedFish: seq<string>)
  {
    function Value(f: Field): Option<real>
    {
      match f
      case TankSize => tankSize
      case TempMin => tempMin
      case TempMax => tempMax
      case PhMin => phMin
      case PhMax => phMax
    }
  }

  datatype EnvError =
    | NoMatchingFish   // no input resolved
    | EmptyNameColumn  // the matcher had no candidate: unpacking its result raises

  datatype EnvResult = Recommended(rec: Recommendation) | EnvFailed(error: EnvError)

  /** The inputs that resolve, in input order, duplicates kept. */
  function Kept(score: Scorer, catalog: seq<FishRecord>, fishList: seq<string>): seq<string>
  {
    FlatMap(Keeper(score, catalog), fishList)
  }

  /** Keeps one input if it resolves. */
  function Keeper(score: Scorer, catalog: seq<FishRecord>): string -> seq<string>
  {
    q => if LookupRow(score, catalog, q).Found? then [q] else []
  }

  /** Keeping preserves input order: what is kept from an earlier part of the
      list comes before what is kept from a later part. */
  lemma KeptAppend(score: Scorer, catalog: seq<FishRecord>, a: seq<string>, b: seq<string>)
    ensures Kept(score, catalog, a + b) == Kept(score, catalog, a) + Kept(score, catalog, b)
  {
    FlatMapAppend(Keeper(score, catalog), a, b);
  }

  /** Each input is kept as many times as it occurs if it resolves, and not at
      all otherwise. */
  lemma {:induction false} KeptCounts(score: Scorer, catalog: seq<FishRecord>, fishList: seq<string>, q: string)
    ensures multiset(Kept(score, catalog, fishList))[q] ==
      if LookupRow(score, catalog, q).Found? then multiset(fishList)[q] else 0
  {
    if fishList != [] {
      var front, last := fishList[..|fishList| - 1], fishList[|fishList| - 1];
      assert fishList == front + [last];
      KeptCounts(score, catalog, front, q);
    }
  }

  /** The matches of the inputs that resolve, in input order. */
  function Matches(score: Scorer, catalog: seq<FishRecord>, fishList: seq<string>): seq<Match>
  {
    FlatMap(Resolver(score, catalog), fishList)
  }

  /** Looks one input up, giving its match if it resolves. */
  function Resolver(score: Scorer, catalog: seq<FishRecord>): string -> seq<Match>
  {
    q => MatchOf(score, catalog, q)
  }

  /** The match of one input, if it resolves. */
  function MatchOf(score: Scorer, catalog: seq<FishRecord>, q: string): seq<Match>
  {
    match LookupRow(score, catalog, q)
    case Found(m) => [m]
    case Failed(_) => []
  }

  function Column(ms: seq<Match>, f: Field): seq<Option<real>>
  {
    MapSeq((m: Match) => FieldOf(m.row, f), ms)
  }

  function FishNames(ms: seq<Match>): seq<string>
  {
    MapSeq((m: Match) => m.fishName, ms)
  }

  function Summarize(ms: seq<Match>): Recommendation
  {
    Recommendation(
      Mean(Column(ms, TankSize)), Mean(Column(ms, TempMin)), Mean(Column(ms, TempMax)),
      Mean(Column(ms, PhMin)), Mean(Column(ms, PhMax)), FishNames(ms))
  }

  /** The recommendation for a list of free-text names. It is an error exactly
      when nothing resolves: the name column is empty (and there is something
      to look up), or every input scores below the threshold against every
      canonical name. */
  function Aggregate(score: Scorer, catalog: seq<FishRecord>, fishList: seq<string>): (r: EnvResult)
    ensures r == EnvFailed(EmptyNameColumn) <==> Names(catalog) == [] && fishList != []
    ensures r == EnvFailed(NoMatchingFish) <==>
      && (Names(catalog) != [] || fishList == [])
      && forall i | 0 <= i < |fishList| :: AllBelowThreshold(score, fishList[i], Names(catalog))
  {
    if Names(catalog) == [] && fishList != [] then EnvFailed(EmptyNameColumn)
    else
      var ms := Matches(score, catalog, fishList);
      NoMatchesIffAllRejected(score, catalog, fishList);
      if ms == [] then EnvFailed(NoMatchingFish) else Recommended(Summarize(ms))
  }

  lemma NoMatchesIffAllRejected(score: Scorer, catalog: seq<FishRecord>, fishList: seq<string>)
    ensures Matches(score, catalog, fishList) == [] <==>
      forall i | 0 <= i < |fishList| :: AllBelowThreshold(score, fishList[i], Names(catalog))
  {
    FlatMapEmpty(Resolver(score, catalog), fishList);
    forall i | 0 <= i < |fishList|
      ensures MatchOf(score, catalog, fishList[i]) == [] <==> AllBelowThreshold(score, fishList[i], Names(catalog))
    {
      UnmatchedIffRejected(score, catalog, fishList[i]);
    }
  }

  /** One input yields no match exactly when it scores below the threshold
      against every canonical name (vacuously so when there is none). */
  lemma UnmatchedIffRejected(score: Scorer, catalog: seq<FishRecord>, q: string)
    ensures MatchOf(score, catalog, q) == [] <==> AllBelowThreshold(score, q, Names(catalog))
  {
  }

  /** "Included Fish" has one entry per kept input, in the same order: the
      canonical name that input matched, which is also the name of the row
      whose figures were averaged. */
  lemma {:induction false} MatchesFollowKept(score: Scorer, catalog: seq<FishRecord>, fishList: seq<string>)
    ensures var ms, kept := Matches(score, catalog, fishList), Kept(score, catalog, fishList);
      && |ms| == |kept|
      && forall i | 0 <= i < |kept| :: LookupRow(score, catalog, kept[i]) == Found(ms[i])
  {
    if fishList != [] {
      var front, q := fishList[..|fishList| - 1], fishList[|fishList| - 1];
      MatchesFollowKept(score, catalog, front);
      var ms0, kept0 := Matches(score, catalog, front), Kept(score, catalog, front);
      match LookupRow(score, catalog, q)
      case Found(m) =>
        assert Matches(score, catalog, fishList) == ms0 + [m];
        assert Kept(score, catalog, fishList) == kept0 + [q];
      case Failed(_) =>
        assert Matches(score, catalog, fishList) == ms0;
        assert Kept(score, catalog, fishList) == kept0;
    }
  }

  /** Resolving a permutation of the inputs yields a permutation of the
      matches. */
  lemma MatchesPermutation(score: Scorer, catalog: seq<FishRecord>, xs: seq<string>, ys: seq<string>)
    requires multiset(xs) == multiset(ys)
    ensures multiset(Matches(score, catalog, xs)) == multiset(Matches(score, catalog, ys))
  {
    FlatMapPermutation(Resolver(score, catalog), xs, ys);
  }

  /** Permutations of each other summarize to the same means, and their
      names are permutations of each other. */
  lemma SummarizePermutation(ms1: seq<Match>, ms2: seq<Match>)
    requires multiset(ms1) == multiset(ms2)
    ensures forall f: Field :: Summarize(ms1).Value(f) == Summarize(ms2).Value(f)
    ensures multiset(Summarize(ms1).includedFish) == multiset(Summarize(ms2).includedFish)
  {
    forall f: Field ensures Mean(Column(ms1, f)) == Mean(Column(ms2, f)) {
      MapPermutation((m: Match) => FieldOf(m.row, f), ms1, ms2);
      MeanPermutation(Column(ms1, f), Column(ms2, f));
    }
    MapPermutation((m: Match) => m.fishName, ms1, ms2);
  }

  /** Permuting the inputs changes neither the outcome nor any mean; the
      included names are permuted alike. */
  lemma AggregatePermutation(score: Scorer, catalog: seq<FishRecord>, xs: seq<string>, ys: seq<string>)
    requires multiset(xs) == multiset(ys)
    ensures Aggregate(score, catalog, xs).EnvFailed? ==> Aggregate(score, catalog, xs) == Aggregate(score, catalog, ys)
    ensures Aggregate(score, catalog, xs).Recommended? <==> Aggregate(score, catalog, ys).Recommended?
    ensures Aggregate(score, catalog, xs).Recommended? ==>
      var r1, r2 := Aggregate(score, catalog, xs).rec, Aggregate(score, catalog, ys).rec;
      && (forall f: Field :: r1.Value(f) == r2.Value(f))
      && multiset(r1.includedFish) == multiset(r2.includedFish)
  {
    assert |xs| == |multiset(xs)| == |ys|;
    var ms1, ms2 := Matches(score, catalog, xs), Matches(score, catalog, ys);
    MatchesPermutation(score, catalog, xs, ys);
    assert |ms1| == |multiset(ms1)| == |ms2|;
    if Names(catalog) == [] && xs != [] {
      assert Aggregate(score, catalog, xs) == Aggregate(score, catalog, ys) == EnvFailed(EmptyNameColumn);
    } else if ms1 == [] {
      assert Aggregate(score, catalog, xs) == Aggregate(score, catalog, ys) == EnvFailed(NoMatchingFish);
    } else {
      assert Aggregate(score, catalog, xs) == Recommended(Summarize(ms1));
      assert Aggregate(score, catalog, ys) == Recommended(Summarize(ms2));
      SummarizePermutation(ms1, ms2);
    }
  }

  /** A single resolved species is recommended its own figures. */
  lemma SingleSpecies(score: Scorer, catalog: seq<FishRecord>, q: string)
    requires LookupRow(score, catalog, q).Found?
    ensures var m := LookupRow(score, catalog, q).found;
      Aggregate(score, catalog, [q]) ==
        Recommended(Recommendation(m.row.tankSize, m.row.tempMin, m.row.tempMax, m.row.phMin, m.row.phMax, [m.fishName]))
  {
    var m := LookupRow(score, catalog, q).found;
    FlatMapSingle(Resolver(score, catalog), q);
    assert Matches(score, catalog, [q]) == [m];
    assert Aggregate(score, catalog, [q]) == Recommended(Summarize([m]));
    SummarizeSingle(m);
  }

  /** One match summarizes to its own row's figures and its own name. */
  lemma SummarizeSingle(m: Match)
    ensures Summarize([m]) == Recommendation(m.row.tankSize, m.row.tempMin, m.row.tempMax, m.row.phMin, m.row.phMax, [m.fishName])
  {
    forall f: Field ensures Mean(Column([m], f)) == FieldOf(m.row, f) {
      assert Column([m], f) == [FieldOf(m.row, f)];
      MeanOfSingle(FieldOf(m.row, f));
    }
    assert FishNames([m]) == [m.fishName];
  }

  /** Two species whose misspelt names both resolve: each figure is the mean
      of the two species' figures. */
  lemma NeonTetraAndGuppy(score: Scorer)
    requires score("neon tera", "Neon Tetra") >= Threshold && score("neon tera", "Neon Tetra") >= score("neon tera", "Guppy")
    requires score("gupy", "Guppy") >= Threshold && score("gupy", "Guppy") > score("gupy", "Neon Tetra")
    ensures Aggregate(score, [NeonTetra, Guppy], ["neon tera", "gupy"]) ==
      Recommended(Recommendation(Some(30.0), Some(21.0), Some(27.0), Some(6.5), Some(8.0), ["Neon Tetra", "Guppy"]))
  {
    var catalog := [NeonTetra, Guppy];
    var fishList := ["neon tera", "gupy"];
    var ms := [Match("Neon Tetra", NeonTetra), Match("Guppy", Guppy)];
    ExampleMatches(score);
    assert Names(catalog) != [];
    assert Aggregate(score, catalog, fishList) == Recommended(Summarize(ms));
    ExampleSummary();
  }

  lemma ExampleSummary()
    ensures Summarize([Match("Neon Tetra", NeonTetra), Match("Guppy", Guppy)]) ==
      Recommendation(Some(30.0), Some(21.0), Some(27.0), Some(6.5), Some(8.0), ["Neon Tetra", "Guppy"])
  {
    var ms := [Match("Neon Tetra", NeonTetra), Match("Guppy", Guppy)];
    assert forall f: Field :: FieldOf(NeonTetra, f).Some? && FieldOf(Guppy, f).Some?;
    SummarizePair(ms[0], ms[1]);
    var rec := Summarize(ms);
    assert rec.Value(TankSize) == Some((40.0 + 20.0) / 2.0);
    assert rec.Value(TempMin) == Some((20.0 + 22.0) / 2.0);
    assert rec.Value(TempMax) == Some((26.0 + 28.0) / 2.0);
    assert rec.Value(PhMin) == Some((6.0 + 7.0) / 2.0);
    assert rec.Value(PhMax) == Some((7.5 + 8.5) / 2.0);
  }

  /** Two matches whose rows have every averaged figure. */
  lemma SummarizePair(m1: Match, m2: Match)
    requires forall f: Field :: FieldOf(m1.row, f).Some? && FieldOf(m2.row, f).Some?
    ensures forall f: Field :: Summarize([m1, m2]).Value(f) == Some((FieldOf(m1.row, f).value + FieldOf(m2.row, f).value) / 2.0)
    ensures Summarize([m1, m2]).includedFish == [m1.fishName, m2.fishName]
  {
    forall f: Field
      ensures Mean(Column([m1, m2], f)) == Some((FieldOf(m1.row, f).value + FieldOf(m2.row, f).value) / 2.0)
    {
      assert Column([m1, m2], f) == [Some(FieldOf(m1.row, f).value), Some(FieldOf(m2.row, f).value)];
      MeanOfPair(FieldOf(m1.row, f).value, FieldOf(m2.row, f).value);
    }
    assert FishNames([m1, m2]) == [m1.fishName, m2.fishName];
  }

  lemma ExampleMatches(score: Scorer)
    requires score("neon tera", "Neon Tetra") >= Threshold && score("neon tera", "Neon Tetra") >= score("neon tera", "Guppy")
    requires score("gupy", "Guppy") >= Threshold && score("gupy", "Guppy") > score("gupy", "Neon Tetra")
    ensures Matches(score, [NeonTetra, Guppy], ["neon tera", "gupy"]) == [Match("Neon Tetra", NeonTetra), Match("Guppy", Guppy)]
  {
    ExampleLookups(score);
    var catalog := [NeonTetra, Guppy];
    var fishList := ["neon tera", "gupy"];
    FlatMapPair(Resolver(score, catalog), "neon tera", "gupy");
    assert MatchOf(score, catalog, "neon tera") == [Match("Neon Tetra", NeonTetra)];
    assert MatchOf(score, catalog, "gupy") == [Match("Guppy", Guppy)];
  }

  const NeonTetra := FishRecord(Some("Neon Tetra"), Some(40.0), Some(20.0), Some(26.0), Some(6.0), Some(7.5), Some(4.0),
                                None, None, None, None, None)
  const Guppy := FishRecord(Some("Guppy"), Some(20.0), Some(22.0), Some(28.0), Some(7.0), Some(8.5), Some(6.0),
                            None, None, None, None, None)

  lemma ExampleLookups(score: Scorer)
    requires score("neon tera", "Neon Tetra") >= Threshold && score("neon tera", "Neon Tetra") >= score("neon tera", "Guppy")
    requires score("gupy", "Guppy") >= Threshold && score("gupy", "Guppy") > score("gupy", "Neon Tetra")
    ensures LookupRow(score, [NeonTetra, Guppy], "neon tera") == Found(Match("Neon Tetra", NeonTetra))
    ensures LookupRow(score, [NeonTetra, Guppy], "gupy") == Found(Match("Guppy", Guppy))
  {
    var catalog := [NeonTetra, Guppy];
    var names := ["Neon Tetra", "Guppy"];
    assert Names(catalog) == names by {
      assert catalog[1..] == [Guppy];
      assert catalog[1..][1..] == [];
    }
    assert names[..1] == ["Neon Tetra"];
    assert BestIndex(score, "neon tera", names) == 0;
    assert BestIndex(score, "gupy", names) == 1;
    assert IndexOf(names, "Neon Tetra") == 0;
    assert IndexOf(names, "Guppy") == 1 by {
      assert names[1..] == ["Guppy"];
    }
  }

  /** Each recommended figure lies within the range of the resolved species'
      figures for that column. */
  lemma WithinSpeciesRange(score: Scorer, catalog: seq<FishRecord>, fishList: seq<string>, f: Field, lo: real, hi: real)
    requires Aggregate(score, catalog, fishList).Recommended?
    requires forall i | 0 <= i < |fishList| ::
      LookupRow(score, catalog, fishList[i]).Found? && FieldOf(LookupRow(score, catalog, fishList[i]).found.row, f).Some? ==>
        lo <= FieldOf(LookupRow(score, catalog, fishList[i]).found.row, f).value <= hi
    ensures var v := Aggregate(score, catalog, fishList).rec.Value(f);
      v.Some? ==> lo <= v.value <= hi
  {
    var ms := Matches(score, catalog, fishList);
    var kept := Kept(score, catalog, fishList);
    MatchesFollowKept(score, catalog, fishList);
    forall i | 0 <= i < |ms| && FieldOf(ms[i].row, f).Some?
      ensures lo <= FieldOf(ms[i].row, f).value <= hi
    {
      assert kept[i] in multiset(kept);
      KeptCounts(score, catalog, fishList, kept[i]);
      assert kept[i] in multiset(fishList);
      var k :| 0 <= k < |fishList| && fishList[k] == kept[i];
    }
    MeanWithinBounds(Column(ms, f), lo, hi);
  }

  /** The source's loop: resolve each name, append the row read for each
      match, then average. */
  method RecommendEnvironment(score: Scorer, catalog: seq<FishRecord>, fishList: seq<string>) returns (r: EnvResult)
    ensures r == Aggregate(score, catalog, fishList)
  {
    var fishData: seq<Match> := [];
    for i := 0 to |fishList|
      invariant fishData == Matches(score, catalog, fishList[..i])
      invariant i > 0 ==> Names(catalog) != []
    {
      assert fishList[..i + 1][..i] == fishList[..i];
      var fishNames := Names(catalog);
      if fishNames == [] {
        return EnvFailed(EmptyNameColumn);
      }
      var best := fishNames[BestIndex(score, fishList[i], fishNames)];
      if score(fishList[i], best) >= Threshold {
        var index := IndexOf(fishNames, best);
        fishData := fishData + [Match(best, catalog[NamedRow(catalog, index)])];
      }
    }
    assert fishList[..|fishList|] == fishList;
    if fishData == [] {
      return EnvFailed(NoMatchingFish);
    }
    r := Recommended(Summarize(fishData));
  }
}
