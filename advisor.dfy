/** Comparing a tank's measured conditions with the environment recommended
    for its species, and turning the differences into advice. */
module Advisor {
  import opened Options
  import opened Catalog
  import opened FuzzyMatch
  import opened Environment

  /** One piece of advice, carrying the figures its message quotes. */
  datatype Advice =
    | TempTooLow(temperature: real, low: Option<real>, high: Option<real>)
    | TempTooHigh(temperature: real, low: Option<real>, high: Option<real>)
    | PhTooLow(ph: real, low: Option<real>, high: Option<real>)
    | PhTooHigh(ph: real, low: Option<real>, high: Option<real>)
    | TooCloudy(turbidity: real)
    | PoorQuality(quality: real)

  /** Where a piece of advice's topic stands in the fixed order: temperature,
      pH, turbidity, water quality. */
  function Topic(a: Advice): nat
  {
    match a
    case TempTooLow(_, _, _) => 0
    case TempTooHigh(_, _, _) => 0
    case PhTooLow(_, _, _) => 1
    case PhTooHigh(_, _, _) => 1
    case TooCloudy(_) => 2
    case PoorQuality(_) => 3
  }

  /** Comparisons against a missing (NaN) bound are false. */
  predicate Below(x: real, bound: Option<real>)
  {
    bound.Some? && x < bound.value
  }

  predicate Above(x: real, bound: Option<real>)
  {
    bound.Some? && x > bound.value
  }

  /** Turbidity above this is too cloudy; quality below this is poor. */
  const TurbidityLimit: real := 50.0
  const QualityLimit: real := 50.0

  /** The ranges the advisor compares against. */
  datatype Bounds = Bounds(tempLow: Option<real>, tempHigh: Option<real>, phLow: Option<real>, phHigh: Option<real>)

  /** The recommended ranges as the advisor reads them back: each mean is
      printed with one decimal and parsed again, which `round1` stands for; a
      missing mean prints as "nan" and stays missing. */
  function BoundsOf(round1: real -> real, rec: Recommendation): Bounds
  {
    var readBack := (x: Option<real>) => match x case None => None case Some(v) => Some(round1(v));
    Bounds(readBack(rec.tempMin), readBack(rec.tempMax), readBack(rec.phMin), readBack(rec.phMax))
  }

  /** The advice for measured conditions against `b`: at most one message per
      topic, in the fixed topic order, each present exactly when its
      condition holds. */
  function Advise(b: Bounds, temp: real, ph: real, turbidity: real, quality: real): (advice: seq<Advice>)
    ensures forall i, j | 0 <= i < j < |advice| :: Topic(advice[i]) < Topic(advice[j])
  {
    var t, p, c, q := TemperatureAdvice(b, temp), PhAdvice(b, ph), TurbidityAdvice(turbidity), QualityAdvice(quality);
    var advice := t + p + c + q;
    assert forall i | 0 <= i < |advice| ::
      Topic(advice[i]) == if i < |t| then 0 else if i < |t + p| then 1 else if i < |t + p + c| then 2 else 3;
    advice
  }

  /** Each message is present exactly when its condition holds, and quotes
      the measurement and the range it was compared with. */
  lemma AdviseContents(b: Bounds, temp: real, ph: real, turbidity: real, quality: real)
    ensures var advice := Advise(b, temp, ph, turbidity, quality);
      && (forall a | a in advice ::
            a in {TempTooLow(temp, b.tempLow, b.tempHigh), TempTooHigh(temp, b.tempLow, b.tempHigh),
                  PhTooLow(ph, b.phLow, b.phHigh), PhTooHigh(ph, b.phLow, b.phHigh),
                  TooCloudy(turbidity), PoorQuality(quality)})
      && (TempTooLow(temp, b.tempLow, b.tempHigh) in advice <==> Below(temp, b.tempLow))
      && (TempTooHigh(temp, b.tempLow, b.tempHigh) in advice <==> !Below(temp, b.tempLow) && Above(temp, b.tempHigh))
      && (PhTooLow(ph, b.phLow, b.phHigh) in advice <==> Below(ph, b.phLow))
      && (PhTooHigh(ph, b.phLow, b.phHigh) in advice <==> !Below(ph, b.phLow) && Above(ph, b.phHigh))
      && (TooCloudy(turbidity) in advice <==> turbidity > TurbidityLimit)
      && (PoorQuality(quality) in advice <==> quality < QualityLimit)
  {
    var t, p, c, q := TemperatureAdvice(b, temp), PhAdvice(b, ph), TurbidityAdvice(turbidity), QualityAdvice(quality);
    var advice := Advise(b, temp, ph, turbidity, quality);
    assert advice == t + p + c + q;
    assert forall a :: a in advice <==> a in t || a in p || a in c || a in q;
  }

  function TemperatureAdvice(b: Bounds, temp: real): (advice: seq<Advice>)
    ensures |advice| <= 1 && forall a | a in advice :: Topic(a) == 0
    ensures forall a | a in advice :: a in {TempTooLow(temp, b.tempLow, b.tempHigh), TempTooHigh(temp, b.tempLow, b.tempHigh)}
    ensures TempTooLow(temp, b.tempLow, b.tempHigh) in advice <==> Below(temp, b.tempLow)
    ensures TempTooHigh(temp, b.tempLow, b.tempHigh) in advice <==> !Below(temp, b.tempLow) && Above(temp, b.tempHigh)
  {
    if Below(temp, b.tempLow) then [TempTooLow(temp, b.tempLow, b.tempHigh)]
    else if Above(temp, b.tempHigh) then [TempTooHigh(temp, b.tempLow, b.tempHigh)]
    else []
  }

  function PhAdvice(b: Bounds, ph: real): (advice: seq<Advice>)
    ensures |advice| <= 1 && forall a | a in advice :: Topic(a) == 1
    ensures forall a | a in advice :: a in {PhTooLow(ph, b.phLow, b.phHigh), PhTooHigh(ph, b.phLow, b.phHigh)}
    ensures PhTooLow(ph, b.phLow, b.phHigh) in advice <==> Below(ph, b.phLow)
    ensures PhTooHigh(ph, b.phLow, b.phHigh) in advice <==> !Below(ph, b.phLow) && Above(ph, b.phHigh)
  {
    if Below(ph, b.phLow) then [PhTooLow(ph, b.phLow, b.phHigh)]
    else if Above(ph, b.phHigh) then [PhTooHigh(ph, b.phLow, b.phHigh)]
    else []
  }

  function TurbidityAdvice(turbidity: real): (advice: seq<Advice>)
    ensures advice == [] || advice == [TooCloudy(turbidity)]
    ensures TooCloudy(turbidity) in advice <==> turbidity > TurbidityLimit
  {
    if turbidity > TurbidityLimit then [TooCloudy(turbidity)] else []
  }

  function QualityAdvice(quality: real): (advice: seq<Advice>)
    ensures advice == [] || advice == [PoorQuality(quality)]
    ensures PoorQuality(quality) in advice <==> quality < QualityLimit
  {
    if quality < QualityLimit then [PoorQuality(quality)] else []
  }

  /** No advice at all exactly when every measurement is within its range. */
  lemma NoAdviceIffInRange(b: Bounds, temp: real, ph: real, turbidity: real, quality: real)
    ensures Advise(b, temp, ph, turbidity, quality) == [] <==> InRange(b, temp, ph, turbidity, quality)
  {
    var advice := Advise(b, temp, ph, turbidity, quality);
    if advice != [] {
      assert advice[0] in advice;
    }
  }

  predicate InRange(b: Bounds, temp: real, ph: real, turbidity: real, quality: real)
  {
    && !Below(temp, b.tempLow) && !Above(temp, b.tempHigh)
    && !Below(ph, b.phLow) && !Above(ph, b.phHigh)
    && turbidity <= TurbidityLimit && quality >= QualityLimit
  }

  datatype Analysis =
    | AggregationFailed(error: EnvError)  // the aggregation's error, passed through
    | Ideal                               // nothing to advise
    | Recommendations(advice: seq<Advice>)

  /** The source's advisor: aggregate, pass an error through unchanged, and
      otherwise collect advice by conditional appends. */
  method AnalyzeTankConditions(score: Scorer, round1: real -> real, catalog: seq<FishRecord>, fishList: seq<string>,
                               temp: real, ph: real, turbidity: real, quality: real)
    returns (r: Analysis)
    ensures Aggregate(score, catalog, fishList).EnvFailed? ==>
      r == AggregationFailed(Aggregate(score, catalog, fishList).error)
    ensures Aggregate(score, catalog, fishList).Recommended? ==>
      var advice := Advise(BoundsOf(round1, Aggregate(score, catalog, fishList).rec), temp, ph, turbidity, quality);
      r == if advice == [] then Ideal else Recommendations(advice)
    ensures r == Ideal <==>
      && Aggregate(score, catalog, fishList).Recommended?
      && InRange(BoundsOf(round1, Aggregate(score, catalog, fishList).rec), temp, ph, turbidity, quality)
  {
    var recommended := RecommendEnvironment(score, catalog, fishList);
    if recommended.EnvFailed? {
      return AggregationFailed(recommended.error);
    }
    var b := BoundsOf(round1, recommended.rec);
    var recommendations: seq<Advice> := [];
    if Below(temp, b.tempLow) {
      recommendations := recommendations + [TempTooLow(temp, b.tempLow, b.tempHigh)];
    } else if Above(temp, b.tempHigh) {
      recommendations := recommendations + [TempTooHigh(temp, b.tempLow, b.tempHigh)];
    }
    assert recommendations == TemperatureAdvice(b, temp);
    if Below(ph, b.phLow) {
      recommendations := recommendations + [PhTooLow(ph, b.phLow, b.phHigh)];
    } else if Above(ph, b.phHigh) {
      recommendations := recommendations + [PhTooHigh(ph, b.phLow, b.phHigh)];
    }
    assert recommendations == TemperatureAdvice(b, temp) + PhAdvice(b, ph);
    if turbidity > TurbidityLimit {
      recommendations := recommendations + [TooCloudy(turbidity)];
    }
    assert recommendations == TemperatureAdvice(b, temp) + PhAdvice(b, ph) + TurbidityAdvice(turbidity);
    if quality < QualityLimit {
      recommendations := recommendations + [PoorQuality(quality)];
    }
    assert recommendations == Advise(b, temp, ph, turbidity, quality);
    NoAdviceIffInRange(b, temp, ph, turbidity, quality);
    if recommendations == [] {
      return Ideal;
    }
    return Recommendations(recommendations);
  }
}
