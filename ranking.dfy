/** The candidate ranker that runs after scoring: every instrument of the
    universe with usable data is scored, those scoring at least 6 become
    candidates with a stop loss and a target, the candidates are sorted
    stably by descending score in place, and the first 15 are reported. */
module Ranking {
  import opened Metrics
  import opened Scoring

  /** Minimum score for a candidate, out of 9. */
  const ScoreThreshold: int := 6
  /** Number of candidates the report shows at most. */
  const MaxStocksToReport: nat := 15
  /** Number of daily bars below which an instrument is skipped. */
  const MinHistoryBars: nat := 240
  const TimeHorizon: string := "90-180 days"

  /** What the screener knows about one symbol of the universe: the scraped
      metrics (None when scraping failed), the number of daily bars of price
      history downloaded, and the RSI computed from them (None when absent or
      not a number). */
  datatype Instrument = Instrument(symbol: string, metrics: Option<MetricSet>, bars: nat, rsi: Option<real>)

  /** One candidate of the report. */
  datatype Candidate = Candidate(symbol: string, price: real, stopLoss: real, target: real,
                                 horizon: string, criteria: seq<Entry>, score: int)

  /** An 8% stop loss below the last price. */
  function StopLoss(price: real): (stop: real)
    ensures price - stop == 0.08 * price
  {
    price * 0.92
  }

  /** A 16% target above the last price. */
  function Target(price: real): (target: real)
    ensures target - price == 0.16 * price
  {
    price * 1.16
  }

  /** The target is twice as far above the price as the stop loss is below
      it: a 1:2 risk-reward ratio. */
  lemma RiskReward(price: real)
    ensures Target(price) - price == 2.0 * (price - StopLoss(price))
    ensures 0.0 < price ==> StopLoss(price) < price < Target(price)
    ensures StopLoss(100.0) == 92.0 && Target(100.0) == 116.0
  {
  }

  // ---------------------------------------------------------------------------
  // Collecting candidates

  /** The candidate an instrument yields, if any: it needs metrics, at least
      240 bars of history and a score of at least 6; its price is the scraped
      current price, 0 when missing. */
  function Screen(inst: Instrument): (r: Option<Candidate>)
    ensures r.Some? ==> r.value.symbol == inst.symbol && r.value.horizon == TimeHorizon
    ensures r.Some? ==> ScoreThreshold <= r.value.score <= MaxScore && r.value.score == |r.value.criteria|
    ensures r.Some? ==> r.value.stopLoss == StopLoss(r.value.price) && r.value.target == Target(r.value.price)
  {
    if inst.metrics.None? || inst.bars < MinHistoryBars then None
    else
      var m := inst.metrics.value;
      if Score(m, inst.rsi) >= ScoreThreshold then
        var price := Get(m, CurrentPriceKey, 0.0);
        Some(Candidate(inst.symbol, price, StopLoss(price), Target(price), TimeHorizon,
                       Passed(m, inst.rsi), Score(m, inst.rsi)))
      else None
  }

  /** The candidates of a list of instruments, in the order of the list. */
  function Candidates(insts: seq<Instrument>): (cs: seq<Candidate>)
    ensures |cs| <= |insts|
  {
    if insts == [] then []
    else
      var last := Screen(insts[|insts| - 1]);
      Candidates(insts[..|insts| - 1]) + if last.Some? then [last.value] else []
  }

  /** The scoring loop: one pass over the universe, appending each candidate. */
  method CollectCandidates(insts: seq<Instrument>) returns (candidates: seq<Candidate>)
    ensures candidates == Candidates(insts)
  {
    candidates := [];
    var i := 0;
    while i < |insts|
      invariant 0 <= i <= |insts|
      invariant candidates == Candidates(insts[..i])
    {
      var inst := insts[i];
      CandidatesStep(insts, i);
      if inst.metrics.Some? && inst.bars >= MinHistoryBars {
        var metrics := inst.metrics.value;
        var score, reasons := CalculateScore(metrics, inst.rsi);
        if score >= ScoreThreshold {
          var lastPrice := Get(metrics, CurrentPriceKey, 0.0);
          var stopLossPrice := lastPrice * 0.92;
          var targetPrice := lastPrice * 1.16;
          candidates := candidates + [Candidate(inst.symbol, lastPrice, stopLossPrice, targetPrice,
                                                TimeHorizon, reasons, score)];
        } else {
          assert Screen(inst) == None;
        }
      } else {
        assert Screen(inst) == None;
      }
      i := i + 1;
    }
    assert insts[..i] == insts;
  }

  /** One more instrument adds its candidate, if any, at the end. */
  lemma CandidatesStep(insts: seq<Instrument>, i: nat)
    requires i < |insts|
    ensures Candidates(insts[..i + 1])
            == Candidates(insts[..i]) + if Screen(insts[i]).Some? then [Screen(insts[i]).value] else []
  {
    assert insts[..i + 1][..i] == insts[..i];
  }

  /** Every candidate comes from an instrument of the list that qualifies. */
  lemma {:induction false} CandidatesSound(insts: seq<Instrument>)
    ensures forall c :: c in Candidates(insts) ==> exists i :: 0 <= i < |insts| && Screen(insts[i]) == Some(c)
  {
    if insts != [] {
      var init := insts[..|insts| - 1];
      CandidatesSound(init);
      forall c | c in Candidates(insts)
        ensures exists i :: 0 <= i < |insts| && Screen(insts[i]) == Some(c)
      {
        if c in Candidates(init) {
          var i :| 0 <= i < |init| && Screen(init[i]) == Some(c);
          assert insts[i] == init[i];
        } else {
          assert Screen(insts[|insts| - 1]) == Some(c);
        }
      }
    }
  }

  /** Every instrument of the list that qualifies contributes its candidate. */
  lemma {:induction false} CandidatesComplete(insts: seq<Instrument>)
    ensures forall i :: 0 <= i < |insts| && Screen(insts[i]).Some? ==> Screen(insts[i]).value in Candidates(insts)
  {
    if insts != [] {
      var init := insts[..|insts| - 1];
      CandidatesComplete(init);
      forall i | 0 <= i < |insts| && Screen(insts[i]).Some?
        ensures Screen(insts[i]).value in Candidates(insts)
      {
        if i < |init| {
          assert insts[i] == init[i];
        }
      }
    }
  }

  /** Screening a universe in two parts screens each part in turn. */
  lemma {:induction false} CandidatesAppend(a: seq<Instrument>, b: seq<Instrument>)
    ensures Candidates(a + b) == Candidates(a) + Candidates(b)
  {
    if b != [] {
      var init := b[..|b| - 1];
      CandidatesAppend(a, init);
      assert (a + b)[..|a + b| - 1] == a + init;
    } else {
      assert a + b == a;
    }
  }

  /** Candidates keep the order of the universe: when two instruments
      qualify, the earlier one's candidate comes first. */
  lemma CandidatesInUniverseOrder(insts: seq<Instrument>, i: nat, j: nat)
    requires i < j < |insts| && Screen(insts[i]).Some? && Screen(insts[j]).Some?
    ensures exists p, q :: 0 <= p < q < |Candidates(insts)|
              && Candidates(insts)[p] == Screen(insts[i]).value && Candidates(insts)[q] == Screen(insts[j]).value
  {
    var front, back := insts[..j], insts[j..];
    assert insts == front + back;
    CandidatesAppend(front, back);
    CandidatesAppend([insts[j]], back[1..]);
    assert back == [insts[j]] + back[1..];
    assert Candidates([insts[j]]) == [Screen(insts[j]).value] by {
      assert [insts[j]][..0] == [];
    }
    CandidatesComplete(front);
    assert front[i] == insts[i];
    var p :| 0 <= p < |Candidates(front)| && Candidates(front)[p] == Screen(insts[i]).value;
    var q := |Candidates(front)|;
    assert Candidates(insts)[p] == Candidates(front)[p];
    assert Candidates(insts)[q] == Screen(insts[j]).value;
  }

  /** A qualifying instrument has all it takes: metrics, enough history and
      a score of 6 to 9 that counts its listed criteria, and its stop loss
      and target derive from its price. */
  lemma ScreenQualifies(inst: Instrument)
    ensures Screen(inst).Some? <==>
              inst.metrics.Some? && inst.bars >= MinHistoryBars && Score(inst.metrics.value, inst.rsi) >= ScoreThreshold
    ensures Screen(inst).Some? ==>
              var c := Screen(inst).value;
              c.symbol == inst.symbol && ScoreThreshold <= c.score <= MaxScore && c.score == |c.criteria|
              && c.criteria == Passed(inst.metrics.value, inst.rsi)
              && c.price == Get(inst.metrics.value, CurrentPriceKey, 0.0)
              && c.stopLoss == StopLoss(c.price) && c.target == Target(c.price)
  {
    if inst.metrics.Some? {
      ScoreBounds(inst.metrics.value, inst.rsi);
    }
  }

  /** A stock whose current price was not scraped can still qualify: the
      52-week criterion is skipped, but the other eight give it 8 points. It
      is then listed with a price, stop loss and target of 0. */
  lemma UnpricedCandidate(inst: Instrument)
    requires inst.metrics.Some? && inst.bars >= MinHistoryBars
    requires var m := inst.metrics.value;
             CurrentPriceKey !in m
             && MarketCapKey in m && m[MarketCapKey] > 500.0
             && SalesGrowthKey in m && m[SalesGrowthKey] >= 12.0
             && ProfitGrowthKey in m && m[ProfitGrowthKey] >= 12.0
             && PiotroskiKey in m && m[PiotroskiKey] > 5.0
             && DebtToEquityKey in m && m[DebtToEquityKey] < 2.0
             && RoceKey in m && m[RoceKey] > 10.0
             && PriceEarningsKey in m && 0.0 < m[PriceEarningsKey] < 70.0
    requires inst.rsi.Some? && inst.rsi.value > 45.0
    ensures Screen(inst).Some?
    ensures var c := Screen(inst).value;
            c.score == 8 && c.price == 0.0 && c.stopLoss == 0.0 && c.target == 0.0
  {
    var m, rsi := inst.metrics.value, inst.rsi;
    PassedUnrolled(m, rsi);
    forall c | c != NearYearHigh
      ensures |EntriesOf(c, m, rsi)| == 1
    {
    }
    assert EntriesOf(NearYearHigh, m, rsi) == [];
  }

  /** Every candidate scores between 6 and 9, as many points as criteria it
      lists, with stop loss and target derived from its price. */
  lemma CandidatesQualify(insts: seq<Instrument>)
    ensures forall c :: c in Candidates(insts) ==>
              ScoreThreshold <= c.score <= MaxScore && c.score == |c.criteria|
              && c.stopLoss == StopLoss(c.price) && c.target == Target(c.price)
  {
    CandidatesSound(insts);
    forall c | c in Candidates(insts)
      ensures ScoreThreshold <= c.score <= MaxScore && c.score == |c.criteria|
      ensures c.stopLoss == StopLoss(c.price) && c.target == Target(c.price)
    {
      var i :| 0 <= i < |insts| && Screen(insts[i]) == Some(c);
      ScreenQualifies(insts[i]);
    }
  }

  // ---------------------------------------------------------------------------
  // Stable sort by descending score

  /** Scores never increase along the list. */
  predicate NonIncreasing(s: seq<Candidate>)
  {
    forall i, j :: 0 <= i < j < |s| ==> s[i].score >= s[j].score
  }

  /** Inserts `x` after every element scoring at least as much as it, moving
      in from the end, as one pass of insertion sort does. */
  function InsertByScore(t: seq<Candidate>, x: Candidate): (r: seq<Candidate>)
    ensures |r| == |t| + 1
  {
    if t == [] || t[|t| - 1].score >= x.score then t + [x]
    else InsertByScore(t[..|t| - 1], x) + [t[|t| - 1]]
  }

  /** The list sorted by descending score, equal scores in their original
      order: what `sort(key=score, reverse=True)` produces. */
  function SortByScore(s: seq<Candidate>): (r: seq<Candidate>)
    ensures |r| == |s|
  {
    if s == [] then [] else InsertByScore(SortByScore(s[..|s| - 1]), s[|s| - 1])
  }

  /** The elements of a list with a given score, in list order. */
  function WithScore(s: seq<Candidate>, k: int): seq<Candidate>
  {
    if s == [] then []
    else WithScore(s[..|s| - 1], k) + if s[|s| - 1].score == k then [s[|s| - 1]] else []
  }

  /** Insertion adds `x` and keeps every other element. */
  lemma {:induction false} InsertPermutes(t: seq<Candidate>, x: Candidate)
    ensures multiset(InsertByScore(t, x)) == multiset(t) + multiset{x}
  {
    if t != [] && t[|t| - 1].score < x.score {
      InsertPermutes(t[..|t| - 1], x);
      assert t == t[..|t| - 1] + [t[|t| - 1]];
    }
  }

  /** The sorted list is a permutation of the input. */
  lemma {:induction false} SortPermutes(s: seq<Candidate>)
    ensures multiset(SortByScore(s)) == multiset(s)
  {
    if s != [] {
      SortPermutes(s[..|s| - 1]);
      InsertPermutes(SortByScore(s[..|s| - 1]), s[|s| - 1]);
      assert s == s[..|s| - 1] + [s[|s| - 1]];
    }
  }

  /** Where the inner loop stops: once every element from `j` on scores less
      than `x` and the one before `j` (if any) does not, insertion puts `x`
      at `j`. */
  lemma {:induction false} InsertAt(t: seq<Candidate>, x: Candidate, j: nat)
    requires j <= |t|
    requires forall k :: j <= k < |t| ==> t[k].score < x.score
    requires j > 0 ==> t[j - 1].score >= x.score
    ensures InsertByScore(t, x) == t[..j] + [x] + t[j..]
  {
    if |t| == j {
      assert t[..j] == t;
    } else {
      var init := t[..|t| - 1];
      InsertAt(init, x, j);
      assert init[..j] == t[..j];
      assert init[j..] + [t[|t| - 1]] == t[j..];
    }
  }

  /** Insertion keeps a non-increasing list non-increasing. */
  lemma {:induction false} InsertKeepsOrder(t: seq<Candidate>, x: Candidate)
    requires NonIncreasing(t)
    ensures NonIncreasing(InsertByScore(t, x))
  {
    if t == [] || t[|t| - 1].score >= x.score {
    } else {
      var init, last := t[..|t| - 1], t[|t| - 1];
      InsertKeepsOrder(init, x);
      var front := InsertByScore(init, x);
      InsertPermutes(init, x);
      var r := front + [last];
      forall i, j | 0 <= i < j < |r|
        ensures r[i].score >= r[j].score
      {
        if j == |front| {
          assert r[i] == front[i];
          assert front[i] in multiset(init) + multiset{x};
          if front[i] in multiset(init) {
            var k :| 0 <= k < |init| && init[k] == front[i];
            assert t[k] == init[k];
          }
        } else {
          assert r[i] == front[i] && r[j] == front[j];
        }
      }
    }
  }

  /** Insertion adds `x` to the elements of its own score, after those
      already there, and leaves the elements of every other score alone. */
  lemma {:induction false} InsertKeepsTies(t: seq<Candidate>, x: Candidate, k: int)
    ensures WithScore(InsertByScore(t, x), k) == WithScore(t, k) + if x.score == k then [x] else []
  {
    if t == [] || t[|t| - 1].score >= x.score {
      assert (t + [x])[..|t|] == t;
    } else {
      var init, last := t[..|t| - 1], t[|t| - 1];
      InsertKeepsTies(init, x, k);
      var front := InsertByScore(init, x);
      assert (front + [last])[..|front|] == front;
      assert (init + [last]) == t;
    }
  }

  /** The sorted list has non-increasing scores. */
  lemma {:induction false} SortedByScore(s: seq<Candidate>)
    ensures NonIncreasing(SortByScore(s))
  {
    if s != [] {
      SortedByScore(s[..|s| - 1]);
      InsertKeepsOrder(SortByScore(s[..|s| - 1]), s[|s| - 1]);
    }
  }

  /** The sort is stable: for every score, the elements with that score come
      out in the order they went in. */
  lemma {:induction false} SortIsStable(s: seq<Candidate>, k: int)
    ensures WithScore(SortByScore(s), k) == WithScore(s, k)
  {
    if s != [] {
      var init, last := s[..|s| - 1], s[|s| - 1];
      SortIsStable(init, k);
      InsertKeepsTies(SortByScore(init), last, k);
    }
  }

  /** A list already in non-increasing order is left exactly as it is. */
  lemma {:induction false} SortKeepsSorted(s: seq<Candidate>)
    requires NonIncreasing(s)
    ensures SortByScore(s) == s
  {
    if s != [] {
      var init := s[..|s| - 1];
      SortKeepsSorted(init);
      assert init + [s[|s| - 1]] == s;
    }
  }

  /** Ranking an already ranked list changes nothing. */
  lemma SortIdempotent(s: seq<Candidate>)
    ensures SortByScore(SortByScore(s)) == SortByScore(s)
  {
    SortedByScore(s);
    SortKeepsSorted(SortByScore(s));
  }

  /** In-place stable insertion sort by descending score. An element moves
      left only past elements scoring strictly less, so ties keep their
      order. */
  method SortCandidates(a: array<Candidate>)
    modifies a
    ensures a[..] == SortByScore(old(a[..]))
  {
    ghost var original := a[..];
    var i := 0;
    while i < a.Length
      invariant 0 <= i <= a.Length
      invariant a[..i] == SortByScore(original[..i])
      invariant forall k :: i <= k < a.Length ==> a[k] == original[k]
    {
      SortStep(original, i);
      InsertLast(a, i);
      i := i + 1;
    }
    assert original[..i] == original;
  }

  /** Sorting one more element is inserting it into the sorted prefix. */
  lemma SortStep(s: seq<Candidate>, i: nat)
    requires i < |s|
    ensures SortByScore(s[..i + 1]) == InsertByScore(SortByScore(s[..i]), s[i])
  {
    assert s[..i + 1][..i] == s[..i];
  }

  /** One pass of insertion sort: the element at `i` is moved left past the
      elements before it that score strictly less, which shift right by one. */
  method InsertLast(a: array<Candidate>, i: nat)
    requires i < a.Length
    modifies a
    ensures a[..i + 1] == InsertByScore(old(a[..i]), old(a[i]))
    ensures forall k :: i < k < a.Length ==> a[k] == old(a[k])
  {
    ghost var before := a[..i];
    var x := a[i];
    var j := ShiftSmaller(a, i, x);
    a[j] := x;
    InsertAt(before, x, j);
    ghost var inserted := before[..j] + [x] + before[j..];
    Splice(before, x, j);
    assert forall k :: 0 <= k <= i ==> a[k] == inserted[k];
    assert a[..i + 1] == inserted;
  }

  /** The cells of a list with `x` spliced in at `j`. */
  lemma Splice(t: seq<Candidate>, x: Candidate, j: nat)
    requires j <= |t|
    ensures |t[..j] + [x] + t[j..]| == |t| + 1
    ensures forall k :: 0 <= k < j ==> (t[..j] + [x] + t[j..])[k] == t[k]
    ensures (t[..j] + [x] + t[j..])[j] == x
    ensures forall k :: j < k <= |t| ==> (t[..j] + [x] + t[j..])[k] == t[k - 1]
  {
  }

  /** The inner loop of insertion sort: shifts right by one the run of
      elements just before `i` that score less than `x`, and returns where
      that run began, the slot for `x`. */
  method ShiftSmaller(a: array<Candidate>, i: nat, x: Candidate) returns (j: nat)
    requires i < a.Length
    modifies a
    ensures j <= i
    ensures forall k :: 0 <= k < j ==> a[k] == old(a[k])
    ensures forall k :: j < k <= i ==> a[k] == old(a[k - 1])
    ensures forall k :: i < k < a.Length ==> a[k] == old(a[k])
    ensures forall k :: j <= k < i ==> old(a[k]).score < x.score
    ensures j > 0 ==> old(a[j - 1]).score >= x.score
  {
    j := i;
    while j > 0 && a[j - 1].score < x.score
      invariant 0 <= j <= i
      invariant forall k :: 0 <= k < j ==> a[k] == old(a[k])
      invariant forall k :: j < k <= i ==> a[k] == old(a[k - 1])
      invariant forall k :: i < k < a.Length ==> a[k] == old(a[k])
      invariant forall k :: j <= k < i ==> old(a[k]).score < x.score
    {
      a[j] := a[j - 1];
      j := j - 1;
    }
  }

  // ---------------------------------------------------------------------------
  // The report

  function Min(a: nat, b: nat): nat
  {
    if a < b then a else b
  }

  /** The candidates the report shows: the first 15 after sorting. */
  function Report(insts: seq<Instrument>): (r: seq<Candidate>)
    ensures |r| <= MaxStocksToReport
    ensures NonIncreasing(r)
  {
    SortedByScore(Candidates(insts));
    var sorted := SortByScore(Candidates(insts));
    sorted[..Min(|sorted|, MaxStocksToReport)]
  }

  /** The ranking step of the screener: collect, sort in place, truncate.
      Returns the number of candidates found and those reported. */
  method RankCandidates(insts: seq<Instrument>) returns (found: nat, report: seq<Candidate>)
    ensures found == |Candidates(insts)|
    ensures report == Report(insts)
  {
    var candidates := CollectCandidates(insts);
    var a := new Candidate[|candidates|](k requires 0 <= k < |candidates| => candidates[k]);
    assert a[..] == candidates;
    SortCandidates(a);
    found := a.Length;
    report := a[..Min(a.Length, MaxStocksToReport)];
  }

  /** The report lists min(n, 15) of the n candidates, best scores first; each
      scores at least 6; no candidate left out scores more than one shown;
      and among equal scores the earlier instrument comes first. */
  lemma ReportProperties(insts: seq<Instrument>)
    ensures |Report(insts)| == Min(|Candidates(insts)|, MaxStocksToReport)
    ensures NonIncreasing(Report(insts))
    ensures forall c :: c in Report(insts) ==> c in Candidates(insts) && c.score >= ScoreThreshold
    ensures forall i, j :: 0 <= i < |Report(insts)| <= j < |Candidates(insts)| ==>
              SortByScore(Candidates(insts))[j].score <= Report(insts)[i].score
    ensures Report(insts) == SortByScore(Candidates(insts))[..|Report(insts)|]
    // among equal scores the report keeps the candidates' order, which is the
    // order of the universe (CandidatesInUniverseOrder)
    ensures forall k :: WithScore(Report(insts), k) <= WithScore(Candidates(insts), k)
  {
    var cands := Candidates(insts);
    var sorted := SortByScore(cands);
    SortedByScore(cands);
    SortPermutes(cands);
    CandidatesQualify(insts);
    var r := Report(insts);
    forall c | c in r
      ensures c in cands && c.score >= ScoreThreshold
    {
      assert c in sorted;
      assert c in multiset(sorted);
    }
    forall k ensures WithScore(r, k) <= WithScore(cands, k) {
      WithScorePrefix(sorted, |r|, k);
      SortIsStable(cands, k);
    }
  }

  /** Cutting a list keeps a prefix of each score's elements. */
  lemma {:induction false} WithScorePrefix(s: seq<Candidate>, n: nat, k: int)
    requires n <= |s|
    ensures WithScore(s[..n], k) <= WithScore(s, k)
  {
    if n < |s| {
      var init := s[..|s| - 1];
      WithScorePrefix(init, n, k);
      assert init[..n] == s[..n];
    } else {
      assert s[..n] == s;
    }
  }
}
