/** Year-over-year quarterly growth rates, as the scraper derives them from
    the latest quarter's figure and the figure of the same quarter a year
    earlier before storing them in the metric map. */
module Growth {

  const GrowthThreshold: real := 12.0

  function Abs(x: real): real
  {
    if x < 0.0 then -x else x
  }

  /** Sales growth in percent: the change relative to the size of last year's
      figure, and exactly 0 when last year's figure is 0 (no division). */
  function SalesGrowth(latest: real, yoy: real): (g: real)
    ensures yoy == 0.0 ==> g == 0.0
    // the growth rate recovers the latest figure from last year's
    ensures yoy != 0.0 ==> latest == yoy + g * Abs(yoy) / 100.0
    ensures yoy != 0.0 ==> (0.0 < g <==> yoy < latest)
  {
    if yoy != 0.0 then (latest - yoy) / Abs(yoy) * 100.0 else 0.0
  }

  /** Net profit growth in percent: the relative change when last year's
      profit is positive, otherwise +100 for a turn to profit and -100 for
      anything else. */
  function ProfitGrowth(latest: real, yoy: real): (g: real)
    ensures 0.0 < yoy ==> latest == yoy + g * yoy / 100.0
    ensures yoy <= 0.0 ==> (g == 100.0 || g == -100.0)
    ensures yoy <= 0.0 ==> (0.0 < g <==> 0.0 < latest)
  {
    if yoy > 0.0 then (latest - yoy) / yoy * 100.0
    else if latest > 0.0 && yoy <= 0.0 then 100.0
    else -100.0
  }

  /** The sales-growth criterion in terms of the raw figures: a 12% rise on a
      positive base, or a rise of 12% of the magnitude on a negative base. */
  lemma SalesGrowthPasses(latest: real, yoy: real)
    ensures SalesGrowth(latest, yoy) >= GrowthThreshold
            <==> (0.0 < yoy && latest >= 1.12 * yoy) || (yoy < 0.0 && latest >= 0.88 * yoy)
  {
    var g := SalesGrowth(latest, yoy);
    if yoy > 0.0 {
      assert latest == yoy + g * yoy / 100.0;
      assert latest - 1.12 * yoy == (g - 12.0) * yoy / 100.0;
      SignOfProduct(g - 12.0, yoy);
    } else if yoy < 0.0 {
      assert latest == yoy - g * yoy / 100.0;
      assert latest - 0.88 * yoy == (g - 12.0) * -yoy / 100.0;
      SignOfProduct(g - 12.0, -yoy);
    }
  }

  /** The profit-growth criterion in terms of the raw figures: a 12% rise on a
      positive base, or any turn to profit from a zero or negative base. */
  lemma ProfitGrowthPasses(latest: real, yoy: real)
    ensures ProfitGrowth(latest, yoy) >= GrowthThreshold
            <==> (0.0 < yoy && latest >= 1.12 * yoy) || (yoy <= 0.0 && 0.0 < latest)
  {
    var g := ProfitGrowth(latest, yoy);
    if yoy > 0.0 {
      assert latest - 1.12 * yoy == (g - 12.0) * yoy / 100.0;
    }
  }

  lemma SignOfProduct(a: real, b: real)
    requires 0.0 < b
    ensures 0.0 <= a <==> 0.0 <= a * b
  {
    if a < 0.0 {
      assert a * b < 0.0;
    }
  }
}
