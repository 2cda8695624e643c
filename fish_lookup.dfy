/** Looking up one species by a free-text name: fuzzy resolution against the
    name column, selection of the matching row, and decoding of its codes. */
module FishLookup {
  import opened Options
  import opened FishCodes
  import opened Catalog
  import opened FuzzyMatch

  /** A resolved query: the canonical name it matched and the row read for it. */
  datatype Match = Match(fishName: string, row: FishRecord)

  datatype LookupError =
    | NotFound(query: string)  // best score below the threshold
    | NoCandidates             // the name column is empty: the matcher returns nothing to unpack

  datatype Lookup = Found(found: Match) | Failed(error: LookupError)

  /** `m` is what a lookup of `query` should produce: the first best-scoring
      canonical name, scoring at least the threshold, with the first row of
      the table that carries that name. */
  ghost predicate IsMatchFor(score: Scorer, catalog: seq<FishRecord>, query: string, m: Match)
  {
    && m.fishName in Names(catalog)
    && score(query, m.fishName) >= Threshold
    && IsFirstBest(score, query, Names(catalog), IndexOf(Names(catalog), m.fishName))
    && m.row == catalog[FirstRowNamed(catalog, m.fishName)]
  }

  /** Resolve `query`, then find the matched name's position in the name
      column and read the row that position was taken from. */
  function LookupRow(score: Scorer, catalog: seq<FishRecord>, query: string): (r: Lookup)
    ensures r == Failed(NoCandidates) <==> Names(catalog) == []
    ensures r == Failed(NotFound(query)) <==>
      Names(catalog) != [] && AllBelowThreshold(score, query, Names(catalog))
    ensures r.Failed? ==> r.error in {NoCandidates, NotFound(query)}
    ensures r.Found? ==> IsMatchFor(score, catalog, query, r.found) && r.found.row.name == Some(r.found.fishName)
  {
    var names := Names(catalog);
    match Resolve(score, query, names)
    case EmptyCandidates => Failed(NoCandidates)
    case Rejected(_) => Failed(NotFound(query))
    case Accepted(best, _) =>
      var index := IndexOf(names, best);
      NamedRowOfFirstIndex(catalog, best);
      Found(Match(best, catalog[NamedRow(catalog, index)]))
  }

  /** The species record as presented to the caller; numbers stay numbers and
      the five codes are decoded. */
  datatype FishInfo = FishInfo(
    fishName: string,
    tankSize: Option<real>,
    tempMin: Option<real>,
    tempMax: Option<real>,
    phMin: Option<real>,
    phMax: Option<real>,
    maxSize: Option<real>,
    difficulty: string,
    availability: string,
    behavior: string,
    aggression: string,
    breedingDifficulty: string)

  datatype FishInfoResult = FishFound(info: FishInfo) | FishError(error: LookupError)

  function Present(fishName: string, row: FishRecord): FishInfo
  {
    FishInfo(fishName, row.tankSize, row.tempMin, row.tempMax, row.phMin, row.phMax, row.maxSize,
      DecodeDifficulty(row.care), DecodeAvailability(row.availability), DecodeBehavior(row.school),
      DecodeAggression(row.aggression), DecodeBreeding(row.breeding))
  }

  /** Species information for a free-text name. It fails exactly when the
      name column is empty or every canonical name scores below the
      threshold; otherwise it reports the first best match and the figures of
      the first row carrying that name. */
  function GetFishInfo(score: Scorer, catalog: seq<FishRecord>, query: string): (r: FishInfoResult)
    ensures r == FishError(NoCandidates) <==> Names(catalog) == []
    ensures r == FishError(NotFound(query)) <==>
      Names(catalog) != [] && AllBelowThreshold(score, query, Names(catalog))
    ensures r.FishError? ==> r.error in {NoCandidates, NotFound(query)}
    ensures r.FishFound? ==>
      && r.info.fishName in Names(catalog)
      && IsMatchFor(score, catalog, query, Match(r.info.fishName, catalog[FirstRowNamed(catalog, r.info.fishName)]))
      && r.info == Present(r.info.fishName, catalog[FirstRowNamed(catalog, r.info.fishName)])
  {
    match LookupRow(score, catalog, query)
    case Failed(e) => FishError(e)
    case Found(m) => FishFound(Present(m.fishName, m.row))
  }

  /** The lookup as the source writes it: the position of the match in the
      name column, from which missing names were dropped, is used directly as
      a row number of the whole table. */
  function GetFishInfoAsWritten(score: Scorer, catalog: seq<FishRecord>, query: string): (r: FishInfoResult)
    ensures r.FishError? <==> GetFishInfo(score, catalog, query).FishError?
    ensures r.FishError? ==> r == GetFishInfo(score, catalog, query)
    ensures r.FishFound? ==>
      && r.info.fishName == GetFishInfo(score, catalog, query).info.fishName
      && r.info == Present(r.info.fishName, catalog[IndexOf(Names(catalog), r.info.fishName)])
  {
    var names := Names(catalog);
    match Resolve(score, query, names)
    case EmptyCandidates => FishError(NoCandidates)
    case Rejected(_) => FishError(NotFound(query))
    case Accepted(best, _) =>
      var index := IndexOf(names, best);
      NamedRowOfFirstIndex(catalog, best);
      FishFound(Present(best, catalog[index]))
  }

  /** With no missing name in the table, the positional lookup reads the
      right row. */
  lemma AsWrittenAgreesWithoutMissingNames(score: Scorer, catalog: seq<FishRecord>, query: string)
    requires forall q | 0 <= q < |catalog| :: catalog[q].name.Some?
    ensures GetFishInfoAsWritten(score, catalog, query) == GetFishInfo(score, catalog, query)
  {
    var names := Names(catalog);
    if Resolve(score, query, names).Accepted? {
      var best := Resolve(score, query, names).name;
      var index := IndexOf(names, best);
      NamedRowWithoutGaps(catalog, index);
      NamedRowOfFirstIndex(catalog, best);
    }
  }

  /** A table whose first row has no name: the lookup of "Guppy" reports
      "Guppy" with the figures of the unnamed row. */
  lemma AsWrittenReadsUnnamedRow()
    ensures var unnamed := FishRecord(None, Some(100.0), None, None, None, None, None, None, None, None, None, None);
            var guppy := FishRecord(Some("Guppy"), Some(20.0), None, None, None, None, None, None, None, None, None, None);
            var score: Scorer := (q, n) => 100;
            && GetFishInfoAsWritten(score, [unnamed, guppy], "guppy") == FishFound(Present("Guppy", unnamed))
            && GetFishInfo(score, [unnamed, guppy], "guppy") == FishFound(Present("Guppy", guppy))
  {
    var unnamed := FishRecord(None, Some(100.0), None, None, None, None, None, None, None, None, None, None);
    var guppy := FishRecord(Some("Guppy"), Some(20.0), None, None, None, None, None, None, None, None, None, None);
    var catalog := [unnamed, guppy];
    assert Names(catalog) == ["Guppy"] by {
      assert catalog[1..] == [guppy];
      assert catalog[1..][1..] == [];
    }
  }
}
