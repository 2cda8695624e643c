/** The fish table as an in-memory sequence of rows, and the positional
    lookups the source performs on it. */
module Catalog {
  import opened Options
  import opened FuzzyMatch

  /** One row of the fish table; a missing (NaN) or non-numeric cell is None. */
  datatype FishRecord = FishRecord(
    name: Option<string>,        // name_english
    tankSize: Option<real>,      // tank_size_liter
    tempMin: Option<real>,       // temperature_min
    tempMax: Option<real>,       // temperature_max
    phMin: Option<real>,         // phmin
    phMax: Option<real>,         // phmax
    maxSize: Option<real>,       // cm_max
    care: Option<real>,          // uncare
    availability: Option<real>,  // availability
    school: Option<real>,        // school
    aggression: Option<real>,    // agression
    breeding: Option<real>)      // breeding_difficulty

  /** The name column with missing cells dropped, in table order. */
  function Names(catalog: seq<FishRecord>): (names: seq<string>)
    ensures |names| <= |catalog|
  {
    if catalog == [] then []
    else match catalog[0].name
      case None => Names(catalog[1..])
      case Some(s) => [s] + Names(catalog[1..])
  }


  /** The position in the table of the `k`-th named row, that is, of the row
      that `Names(catalog)[k]` was taken from. */
  function NamedRow(catalog: seq<FishRecord>, k: nat): (p: nat)
    requires k < |Names(catalog)|
    ensures k <= p < |catalog|
    ensures catalog[p].name == Some(Names(catalog)[k])
    ensures Names(catalog[..p]) == Names(catalog)[..k]
  {
    assert catalog[1..][..|catalog| - 1] == catalog[1..];
    var p := if catalog[0].name.None? then 1 + NamedRow(catalog[1..], k)
             else if k == 0 then 0
             else 1 + NamedRow(catalog[1..], k - 1);
    assert p > 0 ==> catalog[..p] == [catalog[0]] + catalog[1..][..p - 1];
    p
  }

  /** The first row of the table whose name is `s`. */
  function FirstRowNamed(catalog: seq<FishRecord>, s: string): (p: nat)
    requires s in Names(catalog)
    ensures p < |catalog| && catalog[p].name == Some(s)
    ensures forall q | 0 <= q < p :: catalog[q].name != Some(s)
  {
    if catalog[0].name == Some(s) then 0
    else 1 + FirstRowNamed(catalog[1..], s)
  }

  /** Every named row contributes its name to the name column. */
  lemma {:induction false} NamedRowsAreListed(catalog: seq<FishRecord>, q: nat)
    requires q < |catalog| && catalog[q].name.Some?
    ensures catalog[q].name.value in Names(catalog)
  {
    if q > 0 {
      NamedRowsAreListed(catalog[1..], q - 1);
    }
  }

  /** Going from the first position of a name in the name column back to its
      row lands on the first row carrying that name. */
  lemma NamedRowOfFirstIndex(catalog: seq<FishRecord>, s: string)
    requires s in Names(catalog)
    ensures NamedRow(catalog, IndexOf(Names(catalog), s)) == FirstRowNamed(catalog, s)
  {
    var k := IndexOf(Names(catalog), s);
    var p := NamedRow(catalog, k);
    var f := FirstRowNamed(catalog, s);
    if f < p {
      NamedRowsAreListed(catalog[..p], f);
      assert false;
    }
  }

  /** When no row up to the `k`-th has a missing name, the `k`-th named row is
      row `k` itself. */
  lemma {:induction false} NamedRowWithoutGaps(catalog: seq<FishRecord>, k: nat)
    requires k < |catalog|
    requires forall q | 0 <= q <= k :: catalog[q].name.Some?
    ensures k < |Names(catalog)| && NamedRow(catalog, k) == k
  {
    if k > 0 {
      NamedRowWithoutGaps(catalog[1..], k - 1);
    }
  }

  /** The name column is as long as the table exactly when no row's name is
      missing. */
  lemma {:induction false} NamesFullIffAllNamed(catalog: seq<FishRecord>)
    ensures |Names(catalog)| == |catalog| <==> forall q | 0 <= q < |catalog| :: catalog[q].name.Some?
  {
    if catalog != [] {
      NamesFullIffAllNamed(catalog[1..]);
      assert forall q | 1 <= q < |catalog| :: catalog[q] == catalog[1..][q - 1];
    }
  }

  /** Reading the row at the position a name holds in the name column (the
      source's `df.iloc[index]`) lands on a row carrying that name exactly
      when no row up to that position has a missing name. */
  lemma PositionalRowIffNoGaps(catalog: seq<FishRecord>, s: string)
    requires s in Names(catalog)
    ensures IndexOf(Names(catalog), s) < |catalog|
    ensures var k := IndexOf(Names(catalog), s);
      catalog[k].name == Some(s) <==> forall q | 0 <= q <= k :: catalog[q].name.Some?
  {
    var k := IndexOf(Names(catalog), s);
    if forall q | 0 <= q <= k :: catalog[q].name.Some? {
      NamedRowWithoutGaps(catalog, k);
    }
    if catalog[k].name == Some(s) {
      PositionalRowHasNoGaps(catalog, s);
    }
  }

  /** A row at the name's position carrying that name has no unnamed row
      before it: the name's row is then the `k`-th named row, so the `k`
      rows before it all contribute a name. */
  lemma PositionalRowHasNoGaps(catalog: seq<FishRecord>, s: string)
    requires s in Names(catalog)
    requires IndexOf(Names(catalog), s) < |catalog|
    requires catalog[IndexOf(Names(catalog), s)].name == Some(s)
    ensures forall q | 0 <= q <= IndexOf(Names(catalog), s) :: catalog[q].name.Some?
  {
    var k := IndexOf(Names(catalog), s);
    NamedRowOfFirstIndex(catalog, s);
    assert NamedRow(catalog, k) == k;
    var front := catalog[..k];
    assert |Names(front)| == k;
    NamesFullIffAllNamed(front);
    forall q | 0 <= q <= k
      ensures catalog[q].name.Some?
    {
      if q < k {
        assert catalog[q] == front[q];
      }
    }
  }
}
