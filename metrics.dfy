/** The metric map the screener scrapes for one stock, and the ways the
    scoring code reads it: Python's `dict.get` with a default, a default of
    positive infinity, and Python truthiness of a possibly absent value. */
module Metrics {

  datatype Option<+T> = None | Some(value: T)

  /** Named fundamental metrics of one stock; any key may be absent. */
  type MetricSet = map<string, real>

  const MarketCapKey: string := "Market Cap"
  const SalesGrowthKey: string := "YOY Quarterly Sales Growth"
  const ProfitGrowthKey: string := "YOY Quarterly Profit Growth"
  const PiotroskiKey: string := "Piotroski score"
  const DebtToEquityKey: string := "Debt to equity"
  const RoceKey: string := "ROCE"
  const PriceEarningsKey: string := "Stock P/E"
  const HighLowKey: string := "High / Low"
  const CurrentPriceKey: string := "Current Price"

  /** The nine keys the scoring engine looks at. */
  const ScoredKeys: set<string> := {MarketCapKey, SalesGrowthKey, ProfitGrowthKey, PiotroskiKey,
                                    DebtToEquityKey, RoceKey, PriceEarningsKey, HighLowKey, CurrentPriceKey}

  /** `m.get(key)`: the value, or None when the key is absent. */
  function Lookup(m: MetricSet, key: string): Option<real>
  {
    if key in m then Some(m[key]) else None
  }

  /** `m.get(key, default)` with a finite default. */
  function Get(m: MetricSet, key: string, default: real): (r: real)
    // `m.get(key, d)` is `m.get(key)` with None replaced by d
    ensures Lookup(m, key) == Some(r) || (Lookup(m, key) == None && r == default)
  {
    if key in m then m[key] else default
  }

  /** A real extended with positive infinity, for `m.get(key, float('inf'))`. */
  datatype Extended = Finite(v: real) | PosInfinity

  function GetOrInfinity(m: MetricSet, key: string): (e: Extended)
    ensures e.PosInfinity? <==> Lookup(m, key) == None
    ensures e.Finite? ==> Lookup(m, key) == Some(e.v)
    // an infinite default is below no bound, and above every bound
    ensures key !in m ==> forall b :: !Below(e, b) && Above(e, b)
  {
    if key in m then Finite(m[key]) else PosInfinity
  }

  /** `e < bound` under IEEE ordering: infinity is below no real. */
  predicate Below(e: Extended, bound: real)
  {
    e.Finite? && e.v < bound
  }

  /** `bound < e` under IEEE ordering: infinity is above every real. */
  predicate Above(e: Extended, bound: real)
  {
    e.PosInfinity? || bound < e.v
  }

  /** Python truthiness of `m.get(key)`: None and 0.0 are both false. */
  predicate Truthy(o: Option<real>): (b: bool)
    ensures b <==> o != None && o != Some(0.0)
  {
    o.Some? && o.value != 0.0
  }
}
