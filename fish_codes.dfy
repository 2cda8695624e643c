/** The fixed tables that turn the five integer-coded columns of the fish
    table into labels, with "Unknown" for any code a table does not hold. */
module FishCodes {
  import opened Options

  const Unknown: string := "Unknown"

  // Codes are kept as reals: the columns are read as numbers, and a
  // dictionary keyed by 4 is also found with 4.0.
  const DifficultyLabels: map<real, string> :=
    map[4.0 := "Beginner", 3.0 := "Easy", 2.0 := "Medium", 1.0 := "Difficult"]
  const AvailabilityLabels: map<real, string> :=
    map[4.0 := "Very common", 3.0 := "Common", 2.0 := "Rare", 1.0 := "Very rare"]
  const BehaviorLabels: map<real, string> :=
    map[3.0 := "Schooling", 2.0 := "Social", 1.0 := "Solitary"]
  const AggressionLabels: map<real, string> :=
    map[3.0 := "Aggressive", 2.0 := "Mostly peaceful", 1.0 := "Peaceful"]
  const BreedingLabels: map<real, string> :=
    map[4.0 := "No record", 3.0 := "Hard", 2.0 := "Medium", 1.0 := "Easy"]

  /** `table.get(code, "Unknown")`; a missing cell is never a key. */
  function Decode(table: map<real, string>, code: Option<real>): (decoded: string)
    requires Unknown !in table.Values
    ensures decoded == Unknown <==> code.None? || code.value !in table
    ensures decoded != Unknown ==> decoded in table.Values
  {
    if code.Some? && code.value in table then table[code.value] else Unknown
  }

  function DecodeDifficulty(code: Option<real>): (decoded: string)
    ensures decoded == Unknown <==> code !in {Some(1.0), Some(2.0), Some(3.0), Some(4.0)}
    ensures code == Some(4.0) ==> decoded == "Beginner"
    ensures code == Some(3.0) ==> decoded == "Easy"
    ensures code == Some(2.0) ==> decoded == "Medium"
    ensures code == Some(1.0) ==> decoded == "Difficult"
  {
    Decode(DifficultyLabels, code)
  }

  function DecodeAvailability(code: Option<real>): (decoded: string)
    ensures decoded == Unknown <==> code !in {Some(1.0), Some(2.0), Some(3.0), Some(4.0)}
    ensures code == Some(4.0) ==> decoded == "Very common"
    ensures code == Some(3.0) ==> decoded == "Common"
    ensures code == Some(2.0) ==> decoded == "Rare"
    ensures code == Some(1.0) ==> decoded == "Very rare"
  {
    Decode(AvailabilityLabels, code)
  }

  function DecodeBehavior(code: Option<real>): (decoded: string)
    ensures decoded == Unknown <==> code !in {Some(1.0), Some(2.0), Some(3.0)}
    ensures code == Some(3.0) ==> decoded == "Schooling"
    ensures code == Some(2.0) ==> decoded == "Social"
    ensures code == Some(1.0) ==> decoded == "Solitary"
  {
    Decode(BehaviorLabels, code)
  }

  function DecodeAggression(code: Option<real>): (decoded: string)
    ensures decoded == Unknown <==> code !in {Some(1.0), Some(2.0), Some(3.0)}
    ensures code == Some(3.0) ==> decoded == "Aggressive"
    ensures code == Some(2.0) ==> decoded == "Mostly peaceful"
    ensures code == Some(1.0) ==> decoded == "Peaceful"
  {
    Decode(AggressionLabels, code)
  }

  function DecodeBreeding(code: Option<real>): (decoded: string)
    ensures decoded == Unknown <==> code !in {Some(1.0), Some(2.0), Some(3.0), Some(4.0)}
    ensures code == Some(4.0) ==> decoded == "No record"
    ensures code == Some(3.0) ==> decoded == "Hard"
    ensures code == Some(2.0) ==> decoded == "Medium"
    ensures code == Some(1.0) ==> decoded == "Easy"
  {
    Decode(BreedingLabels, code)
  }
}
