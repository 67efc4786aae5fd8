/** The scoring engine: nine independent threshold criteria over a sparse
    metric map and an optional RSI value. Each criterion that passes adds one
    point and one entry, in the fixed order 1 to 9. */
module Scoring {
  import opened Metrics

  /** The nine criteria, in evaluation order. */
  datatype Criterion =
    | MarketCap       // 1. market capitalisation above 500 crores
    | SalesGrowth     // 2. quarterly sales growth of at least 12%
    | ProfitGrowth    // 3. quarterly net profit growth of at least 12%
    | Piotroski       // 4. Piotroski score above 5
    | DebtToEquity    // 5. debt to equity below 2
    | Roce            // 6. return on capital employed above 10%
    | PriceEarnings   // 7. price/earnings strictly between 0 and 70
    | NearYearHigh    // 8. at most 35% below the 52-week high
    | Momentum        // 9. 14-period RSI above 45

  /** What a criterion contributed: a pass carrying the value the report
      shows for it, a failed threshold, or a check skipped for lack of data. */
  datatype Verdict = Pass(shown: real) | Fail | Skip

  /** A passed criterion as the report lists it: which one, and its value. */
  datatype Entry = Entry(criterion: Criterion, value: real)

  const MaxScore: nat := 9

  const AllCriteria: seq<Criterion> :=
    [MarketCap, SalesGrowth, ProfitGrowth, Piotroski, DebtToEquity, Roce, PriceEarnings, NearYearHigh, Momentum]

  /** Position of a criterion in the evaluation order, 1 to 9. */
  function Number(c: Criterion): nat
  {
    match c
    case MarketCap => 1
    case SalesGrowth => 2
    case ProfitGrowth => 3
    case Piotroski => 4
    case DebtToEquity => 5
    case Roce => 6
    case PriceEarnings => 7
    case NearYearHigh => 8
    case Momentum => 9
  }

  /** How far, in percent, the current price lies below the 52-week high. */
  function PercentFromHigh(high: real, current: real): (pct: real)
    requires high != 0.0
    // the current price lies pct percent of the high below it
    ensures current == high - pct * high / 100.0
  {
    (high - current) / high * 100.0
  }

  /** The nine thresholds stated directly on the metric map, without
      defaults: an absent metric never meets its threshold. */
  predicate Meets(c: Criterion, m: MetricSet, rsi: Option<real>)
  {
    match c
    case MarketCap => MarketCapKey in m && m[MarketCapKey] > 500.0
    case SalesGrowth => SalesGrowthKey in m && m[SalesGrowthKey] >= 12.0
    case ProfitGrowth => ProfitGrowthKey in m && m[ProfitGrowthKey] >= 12.0
    case Piotroski => PiotroskiKey in m && m[PiotroskiKey] > 5.0
    case DebtToEquity => DebtToEquityKey in m && m[DebtToEquityKey] < 2.0
    case Roce => RoceKey in m && m[RoceKey] > 10.0
    case PriceEarnings => PriceEarningsKey in m && 0.0 < m[PriceEarningsKey] < 70.0
    case NearYearHigh =>
      HighLowKey in m && CurrentPriceKey in m && m[HighLowKey] != 0.0 && m[CurrentPriceKey] != 0.0
      && PercentFromHigh(m[HighLowKey], m[CurrentPriceKey]) <= 35.0
    case Momentum => rsi.Some? && rsi.value > 45.0
  }

  /** The verdict of one criterion on one stock. Only the 52-week criterion
      and the RSI criterion can be skipped; the others fall back on defaults. */
  function Evaluate(c: Criterion, m: MetricSet, rsi: Option<real>): (v: Verdict)
    ensures v.Skip? ==> c == NearYearHigh || c == Momentum
    ensures v.Skip? <==> (c == NearYearHigh && !(Truthy(Lookup(m, HighLowKey)) && Truthy(Lookup(m, CurrentPriceKey))))
                         || (c == Momentum && rsi.None?)
    // the defaults never let a criterion pass on a missing metric
    ensures v.Pass? <==> Meets(c, m, rsi)
  {
    match c
    case MarketCap => AboveVerdict(m, MarketCapKey, 500.0)
    case SalesGrowth => AtLeastVerdict(m, SalesGrowthKey, 12.0)
    case ProfitGrowth => AtLeastVerdict(m, ProfitGrowthKey, 12.0)
    case Piotroski => AboveVerdict(m, PiotroskiKey, 5.0)
    case DebtToEquity => DebtToEquityVerdict(m)
    case Roce => AboveVerdict(m, RoceKey, 10.0)
    case PriceEarnings => PriceEarningsVerdict(m)
    case NearYearHigh => NearYearHighVerdict(m)
    case Momentum => MomentumVerdict(rsi)
  }

  /** A criterion whose metric, 0 when missing, must exceed a bound. */
  function AboveVerdict(m: MetricSet, key: string, bound: real): Verdict
  {
    if Get(m, key, 0.0) > bound then Pass(Get(m, key, 0.0)) else Fail
  }

  /** A criterion whose metric, 0 when missing, must reach a bound. */
  function AtLeastVerdict(m: MetricSet, key: string, bound: real): Verdict
  {
    if Get(m, key, 0.0) >= bound then Pass(Get(m, key, 0.0)) else Fail
  }

  /** Criterion 5: debt to equity below 2, infinite when missing. */
  function DebtToEquityVerdict(m: MetricSet): Verdict
  {
    if Below(GetOrInfinity(m, DebtToEquityKey), 2.0) then Pass(Get(m, DebtToEquityKey, 0.0)) else Fail
  }

  /** Criterion 7: P/E strictly between 0 and 70, infinite when missing. */
  function PriceEarningsVerdict(m: MetricSet): Verdict
  {
    var pe := GetOrInfinity(m, PriceEarningsKey);
    if Above(pe, 0.0) && Below(pe, 70.0) then Pass(Get(m, PriceEarningsKey, 0.0)) else Fail
  }

  /** Criterion 8: evaluated only when both the 52-week high and the current
      price are present and non-zero. */
  function NearYearHighVerdict(m: MetricSet): Verdict
  {
    var high, current := Lookup(m, HighLowKey), Lookup(m, CurrentPriceKey);
    if Truthy(high) && Truthy(current) then
      var pct := PercentFromHigh(high.value, current.value);
      if pct <= 35.0 then Pass(pct) else Fail
    else Skip
  }

  /** Criterion 9: evaluated only when an RSI value is available. */
  function MomentumVerdict(rsi: Option<real>): Verdict
  {
    if rsi.Some? then (if rsi.value > 45.0 then Pass(rsi.value) else Fail) else Skip
  }

  /** The entry a criterion appends: one when it passes, none otherwise. */
  function EntriesOf(c: Criterion, m: MetricSet, rsi: Option<real>): (es: seq<Entry>)
    ensures |es| <= 1
    ensures es != [] <==> Evaluate(c, m, rsi).Pass?
  {
    match Evaluate(c, m, rsi)
    case Pass(x) => [Entry(c, x)]
    case _ => []
  }

  /** The entries of the criteria in `cs` that pass, in the order of `cs`:
      each criterion appends its entry after those of the criteria before it. */
  function Select(cs: seq<Criterion>, m: MetricSet, rsi: Option<real>): seq<Entry>
  {
    if cs == [] then [] else Select(cs[..|cs| - 1], m, rsi) + EntriesOf(cs[|cs| - 1], m, rsi)
  }

  /** The list of passed criteria the engine returns: the entries of the
      nine criteria that pass, in evaluation order. */
  function Passed(m: MetricSet, rsi: Option<real>): (es: seq<Entry>)
    ensures |es| <= MaxScore
  {
    SelectLength(AllCriteria, m, rsi);
    Select(AllCriteria, m, rsi)
  }

  /** The score the engine returns. */
  function Score(m: MetricSet, rsi: Option<real>): (score: nat)
    ensures score <= MaxScore
  {
    |Passed(m, rsi)|
  }

  function Tags(es: seq<Entry>): seq<Criterion>
  {
    seq(|es|, i requires 0 <= i < |es| => es[i].criterion)
  }

  /** Entries listed in strictly increasing criterion number. */
  predicate InOrder(es: seq<Entry>)
  {
    forall i, j :: 0 <= i < j < |es| ==> Number(es[i].criterion) < Number(es[j].criterion)
  }

  /** The scoring engine as the program runs it: a counter and a list,
      updated by the nine criterion blocks in turn. */
  method CalculateScore(metrics: MetricSet, rsi: Option<real>) returns (score: int, passed: seq<Entry>)
    ensures passed == Passed(metrics, rsi)
    ensures score == |passed|
  {
    score := 0;
    passed := [];
    score, passed := RunBlock(MarketCap, metrics, rsi, score, passed);
    assert passed == EntriesOf(MarketCap, metrics, rsi);
    score, passed := RunBlock(SalesGrowth, metrics, rsi, score, passed);
    score, passed := RunBlock(ProfitGrowth, metrics, rsi, score, passed);
    score, passed := RunBlock(Piotroski, metrics, rsi, score, passed);
    score, passed := RunBlock(DebtToEquity, metrics, rsi, score, passed);
    score, passed := RunBlock(Roce, metrics, rsi, score, passed);
    score, passed := RunBlock(PriceEarnings, metrics, rsi, score, passed);
    score, passed := RunBlock(NearYearHigh, metrics, rsi, score, passed);
    score, passed := RunBlock(Momentum, metrics, rsi, score, passed);
    PassedUnrolled(metrics, rsi);
  }

  /** One criterion block of the engine: when the criterion passes, the
      counter goes up by one and the criterion's entry is appended; otherwise
      both are left as they were. */
  method RunBlock(c: Criterion, metrics: MetricSet, rsi: Option<real>, score0: int, passed0: seq<Entry>)
    returns (score: int, passed: seq<Entry>)
    ensures passed == passed0 + EntriesOf(c, metrics, rsi)
    ensures score == score0 + |EntriesOf(c, metrics, rsi)|
  {
    score, passed := score0, passed0;
    match c
    case MarketCap =>
      // Criterion 1: market capitalisation
      if Get(metrics, MarketCapKey, 0.0) > 500.0 {
        score := score + 1;
        passed := passed + [Entry(MarketCap, Get(metrics, MarketCapKey, 0.0))];
      }
    case SalesGrowth =>
      // Criterion 2: sales growth
      if Get(metrics, SalesGrowthKey, 0.0) >= 12.0 {
        score := score + 1;
        passed := passed + [Entry(SalesGrowth, Get(metrics, SalesGrowthKey, 0.0))];
      }
    case ProfitGrowth =>
      // Criterion 3: profit growth
      if Get(metrics, ProfitGrowthKey, 0.0) >= 12.0 {
        score := score + 1;
        passed := passed + [Entry(ProfitGrowth, Get(metrics, ProfitGrowthKey, 0.0))];
      }
    case Piotroski =>
      // Criterion 4: Piotroski score
      if Get(metrics, PiotroskiKey, 0.0) > 5.0 {
        score := score + 1;
        passed := passed + [Entry(Piotroski, Get(metrics, PiotroskiKey, 0.0))];
      }
    case DebtToEquity =>
      // Criterion 5: debt to equity, infinitely high when missing
      if Below(GetOrInfinity(metrics, DebtToEquityKey), 2.0) {
        score := score + 1;
        passed := passed + [Entry(DebtToEquity, Get(metrics, DebtToEquityKey, 0.0))];
      }
    case Roce =>
      // Criterion 6: ROCE
      if Get(metrics, RoceKey, 0.0) > 10.0 {
        score := score + 1;
        passed := passed + [Entry(Roce, Get(metrics, RoceKey, 0.0))];
      }
    case PriceEarnings =>
      // Criterion 7: P/E, infinitely high when missing
      var pe := GetOrInfinity(metrics, PriceEarningsKey);
      if Above(pe, 0.0) && Below(pe, 70.0) {
        score := score + 1;
        passed := passed + [Entry(PriceEarnings, Get(metrics, PriceEarningsKey, 0.0))];
      }
    case NearYearHigh =>
      // Criterion 8: price near the 52-week high, only when both prices are truthy
      var high, current := Lookup(metrics, HighLowKey), Lookup(metrics, CurrentPriceKey);
      if Truthy(high) && Truthy(current) {
        var percentFromHigh := PercentFromHigh(high.value, current.value);
        if percentFromHigh <= 35.0 {
          score := score + 1;
          passed := passed + [Entry(NearYearHigh, percentFromHigh)];
        }
      }
    case Momentum =>
      // Criterion 9: RSI, only when a value is available
      if rsi.Some? && rsi.value > 45.0 {
        score := score + 1;
        passed := passed + [Entry(Momentum, rsi.value)];
      }
  }

  /** The result is the nine criteria's entries appended one after the
      other, as the engine's nine blocks append them. */
  lemma PassedUnrolled(m: MetricSet, rsi: Option<real>)
    ensures Passed(m, rsi)
            == EntriesOf(MarketCap, m, rsi) + EntriesOf(SalesGrowth, m, rsi) + EntriesOf(ProfitGrowth, m, rsi)
               + EntriesOf(Piotroski, m, rsi) + EntriesOf(DebtToEquity, m, rsi) + EntriesOf(Roce, m, rsi)
               + EntriesOf(PriceEarnings, m, rsi) + EntriesOf(NearYearHigh, m, rsi) + EntriesOf(Momentum, m, rsi)
  {
    var s0: seq<Criterion> := [];
    var s1 := s0 + [MarketCap];
    var s2 := s1 + [SalesGrowth];
    var s3 := s2 + [ProfitGrowth];
    var s4 := s3 + [Piotroski];
    var s5 := s4 + [DebtToEquity];
    var s6 := s5 + [Roce];
    var s7 := s6 + [PriceEarnings];
    var s8 := s7 + [NearYearHigh];
    var s9 := s8 + [Momentum];
    assert s9 == AllCriteria;
    assert Select(s1, m, rsi) == EntriesOf(MarketCap, m, rsi) by { assert s1[..0] == s0; }
    assert Select(s2, m, rsi) == Select(s1, m, rsi) + EntriesOf(SalesGrowth, m, rsi) by { assert s2[..1] == s1; }
    assert Select(s3, m, rsi) == Select(s2, m, rsi) + EntriesOf(ProfitGrowth, m, rsi) by { assert s3[..2] == s2; }
    assert Select(s4, m, rsi) == Select(s3, m, rsi) + EntriesOf(Piotroski, m, rsi) by { assert s4[..3] == s3; }
    assert Select(s5, m, rsi) == Select(s4, m, rsi) + EntriesOf(DebtToEquity, m, rsi) by { assert s5[..4] == s4; }
    assert Select(s6, m, rsi) == Select(s5, m, rsi) + EntriesOf(Roce, m, rsi) by { assert s6[..5] == s5; }
    assert Select(s7, m, rsi) == Select(s6, m, rsi) + EntriesOf(PriceEarnings, m, rsi) by { assert s7[..6] == s6; }
    assert Select(s8, m, rsi) == Select(s7, m, rsi) + EntriesOf(NearYearHigh, m, rsi) by { assert s8[..7] == s7; }
    assert Select(s9, m, rsi) == Select(s8, m, rsi) + EntriesOf(Momentum, m, rsi) by { assert s9[..8] == s8; }
  }

  // ---------------------------------------------------------------------------
  // Properties of Select over any list of criteria

  /** Every selected entry names a criterion of the list that passed, with the
      value that criterion shows. */
  lemma {:induction false} SelectSound(cs: seq<Criterion>, m: MetricSet, rsi: Option<real>)
    ensures forall i :: 0 <= i < |Select(cs, m, rsi)| ==>
              Select(cs, m, rsi)[i].criterion in cs
              && Evaluate(Select(cs, m, rsi)[i].criterion, m, rsi) == Pass(Select(cs, m, rsi)[i].value)
  {
    if cs != [] {
      var init := cs[..|cs| - 1];
      SelectSound(init, m, rsi);
      var front, back := Select(init, m, rsi), EntriesOf(cs[|cs| - 1], m, rsi);
      var all: seq<Entry> := front + back;
      assert Select(cs, m, rsi) == all;
      forall i | 0 <= i < |all|
        ensures all[i].criterion in cs
        ensures Evaluate(all[i].criterion, m, rsi) == Pass(all[i].value)
      {
        if i < |front| {
          assert all[i] == front[i];
          assert front[i].criterion in init;
        }
      }
    }
  }

  /** Every criterion of the list that passes is selected. */
  lemma {:induction false} SelectComplete(cs: seq<Criterion>, m: MetricSet, rsi: Option<real>)
    ensures forall c :: c in cs && Evaluate(c, m, rsi).Pass? ==> c in Tags(Select(cs, m, rsi))
  {
    if cs != [] {
      var init := cs[..|cs| - 1];
      SelectComplete(init, m, rsi);
      var front, back := Select(init, m, rsi), EntriesOf(cs[|cs| - 1], m, rsi);
      var all: seq<Entry> := front + back;
      assert Select(cs, m, rsi) == all;
      forall c | c in cs && Evaluate(c, m, rsi).Pass?
        ensures c in Tags(all)
      {
        if c == cs[|cs| - 1] {
          assert Tags(all)[|front|] == c;
        } else {
          var k :| 0 <= k < |cs| && cs[k] == c;
          assert c in init by { assert init[k] == c; }
          var j :| 0 <= j < |Tags(front)| && Tags(front)[j] == c;
          assert all[j] == front[j];
          assert Tags(all)[j] == c;
        }
      }
    }
  }

  /** A list of criteria in strictly increasing number yields entries in
      strictly increasing number. */
  lemma {:induction false} SelectInOrder(cs: seq<Criterion>, m: MetricSet, rsi: Option<real>)
    requires forall i, j :: 0 <= i < j < |cs| ==> Number(cs[i]) < Number(cs[j])
    ensures InOrder(Select(cs, m, rsi))
  {
    if cs != [] {
      var init := cs[..|cs| - 1];
      SelectInOrder(init, m, rsi);
      SelectSound(init, m, rsi);
      var front, back := Select(init, m, rsi), EntriesOf(cs[|cs| - 1], m, rsi);
      var all: seq<Entry> := front + back;
      assert Select(cs, m, rsi) == all;
      forall i, j | 0 <= i < j < |all|
        ensures Number(all[i].criterion) < Number(all[j].criterion)
      {
        if j < |front| {
          assert all[i] == front[i];
          assert all[j] == front[j];
        } else {
          assert all[i] == front[i];
          var c := front[i].criterion;
          var k :| 0 <= k < |init| && init[k] == c;
          assert cs[k] == c;
        }
      }
    }
  }

  /** At most one entry per criterion of the list. */
  lemma {:induction false} SelectLength(cs: seq<Criterion>, m: MetricSet, rsi: Option<real>)
    ensures |Select(cs, m, rsi)| <= |cs|
    ensures (forall c :: c in cs ==> Evaluate(c, m, rsi).Pass?) ==> |Select(cs, m, rsi)| == |cs|
    ensures (forall c :: c in cs ==> !Evaluate(c, m, rsi).Pass?) ==> Select(cs, m, rsi) == []
  {
    if cs != [] {
      var init := cs[..|cs| - 1];
      SelectLength(init, m, rsi);
      assert forall c :: c in init ==> c in cs;
    }
  }

  // ---------------------------------------------------------------------------
  // Properties of the engine's result

  /** A criterion appears in the result exactly when it passes, each entry
      carries the value its criterion shows, and the entries follow the
      evaluation order, so no criterion appears twice. */
  lemma PassedExactly(m: MetricSet, rsi: Option<real>)
    ensures forall c :: c in Tags(Passed(m, rsi)) <==> Evaluate(c, m, rsi).Pass?
    ensures forall i :: 0 <= i < |Passed(m, rsi)| ==>
              Evaluate(Passed(m, rsi)[i].criterion, m, rsi) == Pass(Passed(m, rsi)[i].value)
    ensures InOrder(Passed(m, rsi))
  {
    SelectSound(AllCriteria, m, rsi);
    SelectComplete(AllCriteria, m, rsi);
    SelectInOrder(AllCriteria, m, rsi);
    EveryCriterionListed();
  }

  lemma EveryCriterionListed()
    ensures forall c :: c in AllCriteria
  {
    forall c ensures c in AllCriteria {
      match c
      case MarketCap => assert AllCriteria[0] == c;
      case SalesGrowth => assert AllCriteria[1] == c;
      case ProfitGrowth => assert AllCriteria[2] == c;
      case Piotroski => assert AllCriteria[3] == c;
      case DebtToEquity => assert AllCriteria[4] == c;
      case Roce => assert AllCriteria[5] == c;
      case PriceEarnings => assert AllCriteria[6] == c;
      case NearYearHigh => assert AllCriteria[7] == c;
      case Momentum => assert AllCriteria[8] == c;
    }
  }

  lemma ScoreBounds(m: MetricSet, rsi: Option<real>)
    ensures 0 <= Score(m, rsi) <= MaxScore
    ensures (forall c :: Evaluate(c, m, rsi).Pass?) ==> Score(m, rsi) == MaxScore
    ensures (forall c :: !Evaluate(c, m, rsi).Pass?) <==> Score(m, rsi) == 0
  {
    SelectLength(AllCriteria, m, rsi);
    PassedExactly(m, rsi);
    if Score(m, rsi) == 0 {
      forall c ensures !Evaluate(c, m, rsi).Pass? {
        assert c !in Tags(Passed(m, rsi));
      }
    }
  }

  /** With none of the scored metrics and no usable RSI, nothing passes. */
  lemma {:induction false} NoDataScoresZero(m: MetricSet, rsi: Option<real>)
    requires forall k :: k in ScoredKeys ==> k !in m
    requires rsi.None?
    ensures Passed(m, rsi) == [] && Score(m, rsi) == 0
  {
    forall c ensures !Evaluate(c, m, rsi).Pass? {
      assert MarketCapKey !in m && DebtToEquityKey !in m && PriceEarningsKey !in m && HighLowKey !in m;
    }
    SelectLength(AllCriteria, m, rsi);
  }

  /** The thresholds at their boundaries: market cap 500, Piotroski 5, ROCE 10,
      D/E 2, P/E 0 and P/E 70 all fail, while growth of exactly 12 passes. */
  lemma Boundaries(m: MetricSet, rsi: Option<real>)
    ensures Lookup(m, MarketCapKey) == Some(500.0) ==> MarketCap !in Tags(Passed(m, rsi))
    ensures Lookup(m, PiotroskiKey) == Some(5.0) ==> Piotroski !in Tags(Passed(m, rsi))
    ensures Lookup(m, RoceKey) == Some(10.0) ==> Roce !in Tags(Passed(m, rsi))
    ensures Lookup(m, DebtToEquityKey) == Some(2.0) ==> DebtToEquity !in Tags(Passed(m, rsi))
    ensures Lookup(m, PriceEarningsKey) == Some(70.0) ==> PriceEarnings !in Tags(Passed(m, rsi))
    ensures Lookup(m, PriceEarningsKey) == Some(0.0) ==> PriceEarnings !in Tags(Passed(m, rsi))
    ensures Lookup(m, SalesGrowthKey) == Some(12.0) ==> SalesGrowth in Tags(Passed(m, rsi))
    ensures Lookup(m, ProfitGrowthKey) == Some(12.0) ==> ProfitGrowth in Tags(Passed(m, rsi))
  {
    PassedExactly(m, rsi);
  }

  /** Missing D/E and missing P/E count as infinite and fail; missing
      market cap, growth, Piotroski and ROCE count as 0 and fail. */
  lemma MissingDefaultsFail(m: MetricSet, rsi: Option<real>)
    ensures DebtToEquityKey !in m ==> DebtToEquity !in Tags(Passed(m, rsi))
    ensures PriceEarningsKey !in m ==> PriceEarnings !in Tags(Passed(m, rsi))
    ensures MarketCapKey !in m ==> MarketCap !in Tags(Passed(m, rsi))
    ensures SalesGrowthKey !in m ==> SalesGrowth !in Tags(Passed(m, rsi))
    ensures ProfitGrowthKey !in m ==> ProfitGrowth !in Tags(Passed(m, rsi))
    ensures PiotroskiKey !in m ==> Piotroski !in Tags(Passed(m, rsi))
    ensures RoceKey !in m ==> Roce !in Tags(Passed(m, rsi))
  {
    PassedExactly(m, rsi);
  }

  /** Criteria 1 to 7 pass exactly when their metric is present and meets its
      threshold, and each such entry shows the metric's value. */
  lemma ThresholdCriteria(m: MetricSet, rsi: Option<real>)
    ensures MarketCap in Tags(Passed(m, rsi)) <==> MarketCapKey in m && m[MarketCapKey] > 500.0
    ensures SalesGrowth in Tags(Passed(m, rsi)) <==> SalesGrowthKey in m && m[SalesGrowthKey] >= 12.0
    ensures ProfitGrowth in Tags(Passed(m, rsi)) <==> ProfitGrowthKey in m && m[ProfitGrowthKey] >= 12.0
    ensures Piotroski in Tags(Passed(m, rsi)) <==> PiotroskiKey in m && m[PiotroskiKey] > 5.0
    ensures DebtToEquity in Tags(Passed(m, rsi)) <==> DebtToEquityKey in m && m[DebtToEquityKey] < 2.0
    ensures Roce in Tags(Passed(m, rsi)) <==> RoceKey in m && m[RoceKey] > 10.0
    ensures PriceEarnings in Tags(Passed(m, rsi)) <==> PriceEarningsKey in m && 0.0 < m[PriceEarningsKey] < 70.0
  {
    PassedExactly(m, rsi);
    var tags := Tags(Passed(m, rsi));
    assert forall c :: c in tags <==> Meets(c, m, rsi);
  }

  /** Each entry of criteria 1 to 7 shows its metric's value. */
  lemma ThresholdValues(m: MetricSet, rsi: Option<real>)
    ensures forall i :: 0 <= i < |Passed(m, rsi)| ==> ShowsMetric(Passed(m, rsi)[i], m)
  {
    PassedExactly(m, rsi);
    forall e: Entry | Evaluate(e.criterion, m, rsi) == Pass(e.value)
      ensures ShowsMetric(e, m)
    {
    }
  }

  /** The entry of a threshold criterion (1 to 7) shows its metric, present
      in the map. */
  predicate ShowsMetric(e: Entry, m: MetricSet)
  {
    match e.criterion
    case MarketCap => MarketCapKey in m && e.value == m[MarketCapKey]
    case SalesGrowth => SalesGrowthKey in m && e.value == m[SalesGrowthKey]
    case ProfitGrowth => ProfitGrowthKey in m && e.value == m[ProfitGrowthKey]
    case Piotroski => PiotroskiKey in m && e.value == m[PiotroskiKey]
    case DebtToEquity => DebtToEquityKey in m && e.value == m[DebtToEquityKey]
    case Roce => RoceKey in m && e.value == m[RoceKey]
    case PriceEarnings => PriceEarningsKey in m && e.value == m[PriceEarningsKey]
    case NearYearHigh => true
    case Momentum => true
  }

  /** The 52-week criterion passes exactly when both prices are present and
      non-zero and the price is at most 35% below the high; it then shows
      that percentage. */
  lemma NearYearHighCriterion(m: MetricSet, rsi: Option<real>)
    ensures NearYearHigh in Tags(Passed(m, rsi))
            <==> HighLowKey in m && m[HighLowKey] != 0.0 && CurrentPriceKey in m && m[CurrentPriceKey] != 0.0
                 && (m[HighLowKey] - m[CurrentPriceKey]) / m[HighLowKey] * 100.0 <= 35.0
    ensures forall e :: e in Passed(m, rsi) && e.criterion == NearYearHigh ==>
              HighLowKey in m && CurrentPriceKey in m && m[HighLowKey] != 0.0
              && e.value == (m[HighLowKey] - m[CurrentPriceKey]) / m[HighLowKey] * 100.0
  {
    PassedExactly(m, rsi);
  }

  /** The RSI criterion passes exactly when a value is available and above 45;
      it then shows that value. */
  lemma MomentumCriterion(m: MetricSet, rsi: Option<real>)
    ensures Momentum in Tags(Passed(m, rsi)) <==> rsi.Some? && rsi.value > 45.0
    ensures forall e :: e in Passed(m, rsi) && e.criterion == Momentum ==> Some(e.value) == rsi
  {
    PassedExactly(m, rsi);
  }

  /** A stock that meets all nine thresholds scores 9 and lists all nine
      criteria in order. */
  lemma FullMarks(m: MetricSet, rsi: Option<real>)
    requires MarketCapKey in m && m[MarketCapKey] > 500.0
    requires SalesGrowthKey in m && m[SalesGrowthKey] >= 12.0
    requires ProfitGrowthKey in m && m[ProfitGrowthKey] >= 12.0
    requires PiotroskiKey in m && m[PiotroskiKey] > 5.0
    requires DebtToEquityKey in m && m[DebtToEquityKey] < 2.0
    requires RoceKey in m && m[RoceKey] > 10.0
    requires PriceEarningsKey in m && 0.0 < m[PriceEarningsKey] < 70.0
    requires HighLowKey in m && CurrentPriceKey in m && 0.0 < m[HighLowKey]
    requires 0.65 * m[HighLowKey] <= m[CurrentPriceKey]
    requires rsi.Some? && rsi.value > 45.0
    ensures Score(m, rsi) == MaxScore && Tags(Passed(m, rsi)) == AllCriteria
  {
    NearHigh(m[HighLowKey], m[CurrentPriceKey]);
    forall c ensures Evaluate(c, m, rsi).Pass? {
    }
    ScoreBounds(m, rsi);
    PassedExactly(m, rsi);
    AllPassTags(Passed(m, rsi));
  }

  /** On a positive high, being at most 35% below it means reaching 65% of it. */
  lemma NearHigh(high: real, current: real)
    requires 0.0 < high
    ensures PercentFromHigh(high, current) <= 35.0 <==> 0.65 * high <= current
    ensures 0.65 * high <= current ==> current != 0.0
  {
    var pct := PercentFromHigh(high, current);
    var d := 35.0 - pct;
    assert d * high == 100.0 * current - 65.0 * high;
    if 0.0 <= d {
      NonNegativeProduct(d, high);
    } else {
      NonNegativeProduct(-d, high);
      assert d * high != 0.0;
    }
  }

  lemma NonNegativeProduct(a: real, b: real)
    requires 0.0 <= a && 0.0 < b
    ensures 0.0 <= a * b
    ensures 0.0 < a ==> 0.0 < a * b
  {
  }

  /** Nine entries in strictly increasing criterion number are the nine
      criteria in order. */
  lemma AllPassTags(es: seq<Entry>)
    requires |es| == MaxScore && InOrder(es)
    ensures Tags(es) == AllCriteria
  {
    forall i | 0 <= i < |es|
      ensures Tags(es)[i] == AllCriteria[i]
    {
      NumberAtLeast(es, i);
      NumberAtMost(es, i);
    }
  }

  lemma {:induction false} NumberAtLeast(es: seq<Entry>, i: nat)
    requires i < |es| && InOrder(es)
    ensures i + 1 <= Number(es[i].criterion)
  {
    if i > 0 {
      NumberAtLeast(es, i - 1);
    }
  }

  lemma {:induction false} NumberAtMost(es: seq<Entry>, i: nat)
    requires i < |es| && InOrder(es)
    ensures Number(es[i].criterion) + (|es| - 1 - i) <= MaxScore
    decreases |es| - i
  {
    if i < |es| - 1 {
      NumberAtMost(es, i + 1);
    }
  }
}
