# Smart aquarium advisor — a Dafny model

This project models the species logic of the Smart Aquarium back end (`app.py`). The module layout follows the program's parts:

- **FishCodes** holds the five code tables and decodes them: care difficulty, availability, behaviour, aggression and breeding difficulty. A missing or unknown code reads "Unknown".
- **FuzzyMatch** resolves a free-text fish name against the list of canonical English names.
  - The similarity scorer is a parameter: `Scorer`, a score from 0 to 100.
  - The resolver picks the first candidate with the highest score.
  - It rejects the query when that score is below 60.
  - An empty candidate list is its own outcome.
- **Catalog** is the fish table as a sequence of records. Names and figures may be missing (NaN). The module holds:
  - the name column with missing names dropped;
  - the positional correspondence between that column and the table's rows.
- **FishLookup** is `get_fish_info`: resolve a name, select the row and present its figures and decoded codes.
- **Averages** is the NaN-skipping column mean.
- **Environment** is `recommend_environment`:
  - it resolves each requested fish and drops the ones that fail;
  - it averages tank size, temperature bounds and pH bounds over the resolved species, field by field;
  - it lists the canonical names it included.
  - It is written as the source's loop (`RecommendEnvironment`), proved equal to a specification function (`Aggregate`) whose properties are proved as lemmas.
- **Advisor** is `analyze_tank_conditions`:
  - it compares measured temperature, pH, turbidity and water quality against the recommended ranges;
  - it builds the list of advice by conditional appends (`AnalyzeTankConditions`), proved equal to the specification function `Advise`.
- **SeqFacts** and **Options** are generic helpers: map, flat-map, multiset facts, and optional values.

The source and the behaviour its documentation describes differ in one place, and the model follows the source:

- Fuzzy matching over an empty candidate list is documented as a `NotFound` result. In the code, `extractOne` returns nothing for an empty list, so unpacking its result fails.
- The model therefore gives that case its own error:
  - `NoCandidates` in `FishLookup`;
  - `EmptyNameColumn` in `Environment`, which arises only when at least one name is requested.
- An empty request list never consults the name column. It ends in the "no matching fish" error.

## Model

| member | source | states |
|---|---|---|
| FishCodes.Decode | app.py:36-40 | A lookup with default "Unknown": the result is "Unknown" exactly when the code is missing or not a key of the table; otherwise it is one of the table's labels |
| FishCodes.DecodeDifficulty | app.py:11 | "Unknown" exactly when the code is not 1-4; codes 4, 3, 2, 1 read Beginner, Easy, Medium, Difficult |
| FishCodes.DecodeAvailability | app.py:12 | "Unknown" exactly when the code is not 1-4; codes 4, 3, 2, 1 read Very common, Common, Rare, Very rare |
| FishCodes.DecodeBehavior | app.py:13 | "Unknown" exactly when the code is not 1-3; codes 3, 2, 1 read Schooling, Social, Solitary |
| FishCodes.DecodeAggression | app.py:14 | "Unknown" exactly when the code is not 1-3; codes 3, 2, 1 read Aggressive, Mostly peaceful, Peaceful |
| FishCodes.DecodeBreeding | app.py:15 | "Unknown" exactly when the code is not 1-4; codes 4, 3, 2, 1 read No record, Hard, Medium, Easy |
| FuzzyMatch.BestIndex | app.py:22 | The chosen candidate scores at least as high as every candidate, and strictly higher than every earlier one (first maximum) |
| FuzzyMatch.Resolve | app.py:22-24 | Empty candidate list exactly when the list is empty; rejected, carrying the query, exactly when every candidate scores below 60; otherwise the accepted name is the first best candidate and scores at least 60 |
| FuzzyMatch.IndexOf | app.py:27 | The first position holding the name |
| Catalog.Names | app.py:21 | The name column with missing names dropped is no longer than the table |
| Catalog.NamedRow | app.py:21-28 | The k-th listed name comes from a row at or after position k that carries it, and the names listed before it are exactly those of the rows before that row |
| Catalog.FirstRowNamed | app.py:27-28 | The first row carrying a given name |
| Catalog.NamedRowsAreListed | app.py:21 | Every named row's name is in the name column |
| Catalog.NamedRowOfFirstIndex | app.py:27-28 | The row behind the first listed position of a name is the first row carrying that name |
| Catalog.NamedRowWithoutGaps | app.py:21-28 | When no row up to k lacks a name, the k-th listed name comes from row k |
| Catalog.NamesFullIffAllNamed | app.py:21 | The name column with missing names dropped is as long as the table exactly when no name is missing |
| Catalog.PositionalRowIffNoGaps | app.py:21-28 | The row at a name's first position in the name column (`df.iloc[index]`) carries that name exactly when no row up to that position lacks a name |
| FishLookup.LookupRow | app.py:21-28 | Fails with no candidates exactly when the name column is empty; fails with not-found, carrying the query, exactly when every name scores below 60; otherwise returns the first best match scoring at least 60 together with the first row carrying that name |
| FishLookup.GetFishInfo | app.py:20-41 | Same failure cases as the lookup; on success "Fish Name" is the first best match and the figures and decoded codes are those of the first row carrying that name |
| FishLookup.GetFishInfoAsWritten | app.py:20-41 | As the code is written: fails in the same cases and reports the same name, but presents the row whose table position equals the name's position in the NaN-dropped name column |
| FishLookup.AsWrittenAgreesWithoutMissingNames | app.py:21-28 | When no row lacks a name, the as-written lookup equals the corrected one |
| FishLookup.AsWrittenReadsUnnamedRow | app.py:21-28 | With an unnamed first row, the as-written lookup of "guppy" reports "Guppy" with the unnamed row's figures |
| Averages.CountZeroIffAllMissing | app.py:60-71 | No numeric value exactly when every cell is missing |
| Averages.Mean | app.py:67-71 | The mean is missing exactly when every cell is missing; otherwise mean × count of numeric values = their sum |
| Averages.SumCountAppend | app.py:67-71 | Sum and count split over concatenation |
| Averages.MeanPermutation | app.py:67-71 | Reordering a column changes neither sum, count nor mean |
| Averages.MeanOfSingle | app.py:67-71 | The mean of one cell is that cell |
| Averages.MeanOfPair | app.py:67-71 | The mean of two numbers is their half-sum |
| Averages.MeanWithinBounds | app.py:67-71 | A mean lies within any bounds holding for every numeric value |
| Averages.SumWithinBounds | app.py:67-71 | The sum lies between count × lower and count × upper bound |
| Environment.KeptAppend | app.py:46-52 | Keeping preserves input order: what is kept from an earlier part of the list precedes what is kept from a later part |
| Environment.KeptCounts | app.py:46-52 | An input that resolves is kept as often as it occurs (duplicates preserved); one that does not is never kept |
| Environment.UnmatchedIffRejected | app.py:48-50 | One input contributes no row exactly when it scores below 60 against every name |
| Environment.NoMatchesIffAllRejected | app.py:46-54 | No row is collected exactly when every input scores below 60 against every name |
| Environment.MatchesFollowKept | app.py:46-77 | "Included Fish" has one entry per kept input, in order; each entry is that input's match, whose row carries that name |
| Environment.MatchesPermutation | app.py:46-52 | Permuting the inputs permutes the collected rows |
| Environment.Aggregate | app.py:43-80 | Fails on an empty name column exactly when names are requested and there is none; fails with "no matching fish" exactly when every requested name scores below 60 (including an empty request) |
| Environment.SummarizePermutation | app.py:67-77 | Permuted collections have the same five means and permuted name lists |
| Environment.AggregatePermutation | app.py:43-80 | Permuting the requested names changes neither the outcome nor any mean; the included names are permuted alike |
| Environment.SummarizeSingle | app.py:67-77 | One match is summarized to its own row's five figures and its own name |
| Environment.SingleSpecies | app.py:43-80 | One resolvable name is recommended its own species' figures and lists its canonical name |
| Environment.NeonTetraAndGuppy | app.py:43-80 | Two misspelt names that resolve to two species are recommended the half-sums of the two species' figures, names in request order |
| Environment.WithinSpeciesRange | app.py:60-71 | Each recommended figure lies within any bounds that hold for that figure in every resolved species |
| Environment.RecommendEnvironment | app.py:43-80 | The loop that resolves, appends and averages returns exactly Aggregate |
| Advisor.Advise | app.py:92-108 | At most one message per topic, in the order temperature, pH, turbidity, quality |
| Advisor.TemperatureAdvice | app.py:94-97 | At most one temperature message: too low exactly when below the minimum, too high exactly when not below the minimum and above the maximum |
| Advisor.PhAdvice | app.py:99-102 | The same rule for pH |
| Advisor.TurbidityAdvice | app.py:104-105 | A cloudiness message exactly when turbidity exceeds 50 |
| Advisor.QualityAdvice | app.py:107-108 | A quality message exactly when quality is below 50 |
| Advisor.AdviseContents | app.py:94-108 | Every message is one of the six, quoting the measurement and range; each is present exactly when its condition holds |
| Advisor.NoAdviceIffInRange | app.py:94-111 | No message exactly when every measurement is within its range |
| Advisor.AnalyzeTankConditions | app.py:82-114 | An aggregation error is passed through unchanged; otherwise the result is the advice against the rounded recommended ranges, and "ideal" exactly when there is a recommendation and every measurement is in range |

## Left out

- The Flask routes, CORS and server start-up (app.py:1-8, app.py:116-159) are transport, including the routes' missing-field checks.
- Loading the CSV file (app.py:18) is I/O. The catalog is a parameter.
- The string similarity inside `fuzzywuzzy.process.extractOne` is a foreign library. The scorer is a parameter with scores from 0 to 100; only extractOne's choice of the first best candidate is modelled.
- JSON encoding and decoding and message wording are not modelled. Results are datatypes, and each message is a constructor carrying the numbers it quotes.
- Floating point is modelled as `real`. NaN is modelled as a missing value, and comparisons against it are false.
- Printing a mean with one decimal and parsing it back (app.py:75-76, app.py:89-90) is a parameter `round1`. It is applied to the bounds the advisor compares against.
- Inputs that are not numbers are out of scope. `pd.to_numeric(..., errors='coerce')` is modelled by the cells already being numbers or missing.
- The stocking and nearest-neighbour recommender does not appear in `app.py`. It is not part of this model.
- Environment.RecommendEnvironment and FishLookup.GetFishInfo: both read the first row carrying the matched name, not `df.iloc[index]` as written (see Findings).
- Concurrency and request state: none exists. Each operation is a function of its inputs and the table.

## Findings

| source | as written | input that shows it | evidently intended | confidence | as-written member | corrected member |
|---|---|---|---|---|---|---|
| app.py:21, app.py:27-28 (repeated at app.py:47, app.py:51-52) | The position of the match in the name column, with missing names dropped, is used as a row number of the whole table (`df.iloc[index]`) | A table whose first row has no name and whose second row is "Guppy", looked up as "guppy": "Guppy" is reported with the unnamed row's figures | Read the row that carries the matched name | not executed | FishLookup.GetFishInfoAsWritten, FishLookup.AsWrittenReadsUnnamedRow | FishLookup.GetFishInfo, Catalog.NamedRow |
