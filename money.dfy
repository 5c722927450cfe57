/**
 * Amounts, the rate table and shipping (backend/helpers.php: convertCurrency,
 * calculateShipping). Money is exact rational arithmetic here, where the
 * backend uses IEEE-754 doubles.
 */
module Money {
  import opened Wrappers

  /** A whole number of cents. */
  predicate IsCents(x: real) {
    (x * 100.0).Floor as real == x * 100.0
  }

  /** PHP round($x, 2): the nearest cent, with halves rounded away from zero. */
  function Round2(x: real): (r: real)
    ensures IsCents(r)
    ensures -0.005 <= r - x <= 0.005
    ensures x >= 0.0 ==> x - 0.005 < r <= x + 0.005  // a tie goes up ...
    ensures x < 0.0 ==> x - 0.005 <= r < x + 0.005   // ... or down: away from zero
    ensures x >= 0.0 ==> r >= 0.0
    ensures x <= 0.0 ==> r <= 0.0
  {
    if x >= 0.0 then RoundUpHalves(x) else -RoundUpHalves(-x)
  }

  /** Rounding a non-negative amount to the nearest cent, halves upwards. */
  function RoundUpHalves(x: real): (r: real)
    requires x >= 0.0
    ensures IsCents(r) && IsCents(-r)
    ensures -0.005 < r - x <= 0.005 && r >= 0.0
  {
    var n := (x * 100.0 + 0.5).Floor;
    CentsOf(n);
    n as real / 100.0
  }

  lemma CentsOf(n: int)
    ensures IsCents(n as real / 100.0) && IsCents(-(n as real / 100.0))
  {
    assert n as real / 100.0 * 100.0 == n as real;
    assert -(n as real / 100.0) * 100.0 == (-n) as real;
  }

  /** A whole number of cents is left as it is. */
  lemma Round2OfCents(x: real)
    requires IsCents(x)
    ensures Round2(x) == x
  {
    var n := (x * 100.0).Floor;
    assert x == n as real / 100.0;
    if x >= 0.0 {
      assert (x * 100.0 + 0.5).Floor == n;
    } else {
      assert ((-x) * 100.0 + 0.5).Floor == -n;
    }
  }

  lemma Round2Idempotent(x: real)
    ensures Round2(Round2(x)) == Round2(x)
  {
    Round2OfCents(Round2(x));
  }

  function Max(a: int, b: int): int { if a >= b then a else b }

  /** The rate table in force: the configured one, or `['AUD' => 1.0]` when the configuration has none. */
  function RateTable(configured: Option<map<string, real>>): (table: map<string, real>)
    ensures configured.None? ==> table == map["AUD" := 1.0]
    ensures configured.Some? ==> table == configured.value
  {
    configured.GetOr(map["AUD" := 1.0])
  }

  /**
   * convertCurrency($value, $from, $to). It fails open: with either currency
   * missing from the table or a non-positive source rate the amount comes back
   * as it was, not rounded.
   */
  function ConvertCurrency(value: real, from: string, to: string, table: map<string, real>): (r: real)
    ensures from !in table || to !in table || table[from] <= 0.0 ==> r == value
  {
    if from !in table || to !in table || table[from] <= 0.0 then value
    else Round2(value / table[from] * table[to])
  }

  /** Otherwise the result is value / rate[from] * rate[to] to the nearest cent. */
  lemma ConvertCurrencyRounds(value: real, from: string, to: string, table: map<string, real>)
    requires from in table && to in table && table[from] > 0.0
    ensures IsCents(ConvertCurrency(value, from, to, table))
    ensures -0.005 <= ConvertCurrency(value, from, to, table) - value / table[from] * table[to] <= 0.005
  {
  }

  /** Converting into the same currency still rounds to the cent. */
  lemma ConvertSameCurrency(value: real, c: string, table: map<string, real>)
    requires c in table && table[c] > 0.0
    ensures ConvertCurrency(value, c, c, table) == Round2(value)
  {
    var rate := table[c];
    assert value / rate * rate == value;
  }

  /**
   * A -> B -> A comes back within the compounded error of the two roundings.
   * `there` and `back` are any amounts within half a cent of the exact A -> B
   * and B -> A conversions, which is what ConvertCurrency promises of its
   * result: the original comes back to within half a cent, plus half a cent
   * scaled by rate[A] / rate[B].
   */
  lemma RoundTripTolerance(value: real, ra: real, rb: real, there: real, back: real)
    requires ra > 0.0 && rb > 0.0
    requires -0.005 <= there - value / ra * rb <= 0.005
    requires -0.005 <= back - there / rb * ra <= 0.005
    ensures -0.005 - 0.005 * (ra / rb) <= back - value <= 0.005 + 0.005 * (ra / rb)
  {
    var e := there - value / ra * rb;
    var k := ra / rb;
    calc {
      there / rb * ra;
    ==
      (value / ra * rb + e) / rb * ra;
    ==
      value / ra * rb / rb * ra + e / rb * ra;
    ==
      value + e * k;
    }
    assert -0.005 * k <= e * k <= 0.005 * k;
  }

  /** Converting A -> B -> A with ConvertCurrency itself stays within that tolerance. */
  lemma ConvertRoundTrip(value: real, a: string, b: string, table: map<string, real>)
    requires a in table && b in table && table[a] > 0.0 && table[b] > 0.0
    ensures var back := ConvertCurrency(ConvertCurrency(value, a, b, table), b, a, table);
      -0.005 - 0.005 * (table[a] / table[b]) <= back - value <= 0.005 + 0.005 * (table[a] / table[b])
  {
    ConvertCurrencyRounds(value, a, b, table);
    ConvertBack(value, ConvertCurrency(value, a, b, table), a, b, table);
  }

  /** The second leg of the round trip, from any amount within half a cent of the exact first leg. */
  lemma ConvertBack(value: real, there: real, a: string, b: string, table: map<string, real>)
    requires a in table && b in table && table[a] > 0.0 && table[b] > 0.0
    requires -0.005 <= there - value / table[a] * table[b] <= 0.005
    ensures var back := ConvertCurrency(there, b, a, table);
      -0.005 - 0.005 * (table[a] / table[b]) <= back - value <= 0.005 + 0.005 * (table[a] / table[b])
  {
    hide Round2;  // only the bound ConvertCurrencyRounds states is needed
    var ra, rb := table[a], table[b];
    var back := ConvertCurrency(there, b, a, table);
    assert -0.005 <= back - there / rb * ra <= 0.005 by {
      ConvertCurrencyRounds(there, b, a, table);
    }
    RoundTripTolerance(value, ra, rb, there, back);
  }

  /** With the sample rates (AUD 1.0, USD 0.67), 0.05 AUD to USD and back loses a cent. */
  lemma RoundTripLosesACent()
    ensures var table := map["AUD" := 1.0, "USD" := 0.67];
      ConvertCurrency(ConvertCurrency(0.05, "AUD", "USD", table), "USD", "AUD", table) == 0.04
  {
    var table := map["AUD" := 1.0, "USD" := 0.67];
    assert ConvertCurrency(0.05, "AUD", "USD", table) == Round2(0.0335);
    assert (0.0335 * 100.0 + 0.5).Floor == 3;
    assert ConvertCurrency(0.03, "USD", "AUD", table) == Round2(0.03 / 0.67);
    assert (0.03 / 0.67 * 100.0 + 0.5).Floor == 4;
  }

  /** The shipping settings; a missing entry falls back to 0 (base, per item) or INF (free-over threshold). */
  datatype ShippingConfig = ShippingConfig(base: Option<real>, perItem: Option<real>, freeOver: Option<real>)

  /**
   * calculateShipping($subtotal) with cartItemCount() passed as `itemCount`:
   * nothing at or above the free-over threshold (never when there is none),
   * otherwise base plus per-item times the item count, counting at least one.
   */
  function CalculateShipping(subtotal: real, itemCount: int, cfg: ShippingConfig): (r: real)
    ensures cfg.freeOver.Some? && subtotal >= cfg.freeOver.value ==> r == 0.0
    ensures cfg.freeOver.None? || subtotal < cfg.freeOver.value ==>
      r == cfg.base.GetOr(0.0) + cfg.perItem.GetOr(0.0) * Max(1, itemCount) as real
  {
    if cfg.freeOver.Some? && subtotal >= cfg.freeOver.value then 0.0
    else cfg.base.GetOr(0.0) + cfg.perItem.GetOr(0.0) * Max(1, itemCount) as real
  }

  /** With a non-negative per-item rate, shipping is charged for more items than fewer. */
  lemma ShippingMonotoneInItems(subtotal: real, n: int, m: int, cfg: ShippingConfig)
    requires n <= m
    requires cfg.perItem.GetOr(0.0) >= 0.0
    ensures CalculateShipping(subtotal, n, cfg) <= CalculateShipping(subtotal, m, cfg)
  {
    var p := cfg.perItem.GetOr(0.0);
    assert Max(1, n) <= Max(1, m);
    assert p * Max(1, n) as real <= p * Max(1, m) as real;
  }
}
