/** Currency amounts rounded to a fixed number of decimals, over exact decimals. */
module Currency {

  function PowerOfTen(n: nat): (p: real)
    ensures p >= 1.0
  {
    if n == 0 then 1.0 else 10.0 * PowerOfTen(n - 1)
  }

  /** `toFixed`: to the nearest multiple of 10^-decimals, halves away from zero. */
  function Normalize(amount: real, decimals: nat): real { RoundTo(amount, PowerOfTen(decimals)) }

  function RoundTo(amount: real, p: real): real
    requires p > 0.0
  {
    Steps(amount * p) as real / p
  }

  function Steps(x: real): int {
    if x >= 0.0 then (x + 0.5).Floor else -((-x + 0.5).Floor)
  }

  function ToTFT(usd: real, rate: real, decimals: nat): real
    requires rate != 0.0
  {
    Normalize(usd / rate, decimals)
  }

  function ToUSD(tft: real, rate: real, decimals: nat): real { Normalize(tft * rate, decimals) }

  function Daily(hourly: real, decimals: nat): real { Normalize(hourly * 24.0, decimals) }

  function Monthly(hourly: real, decimals: nat): real { Normalize(Daily(hourly, decimals) * 30.0, decimals) }

  function Yearly(hourly: real, decimals: nat): real { Normalize(Monthly(hourly, decimals) * 12.0, decimals) }

  // ---- Rounding ----

  /** Half of the last decimal. */
  function HalfUnit(decimals: nat): real { 0.5 / PowerOfTen(decimals) }

  predicate Within(x: real, y: real, bound: real) { -bound <= x - y <= bound }

  lemma StepsNear(x: real)
    ensures Within(Steps(x) as real, x, 0.5)
  {
  }

  lemma StepsOfInteger(n: int)
    ensures Steps(n as real) == n
  {
  }

  lemma Cancels(x: real, p: real)
    requires p > 0.0
    ensures x * p / p == x && x / p * p == x
  {
  }

  lemma Divided(a: real, b: real, bound: real, p: real)
    requires p > 0.0 && Within(a, b, bound)
    ensures Within(a / p, b / p, bound / p)
  {
    Cancels(a, p);
    Cancels(b, p);
    Cancels(bound, p);
    Under(a / p - b / p, bound / p, p);
    Under(b / p - a / p, bound / p, p);
  }

  lemma Under(x: real, y: real, p: real)
    requires p > 0.0 && x * p <= y * p
    ensures x <= y
  {
  }

  lemma RoundToNear(x: real, p: real)
    requires p > 0.0
    ensures Within(RoundTo(x, p), x, 0.5 / p)
  {
    StepsNear(x * p);
    Divided(Steps(x * p) as real, x * p, 0.5, p);
    Quotient(x, x * p, p);
  }

  lemma {:induction false} ProductReal(n: int, k: nat)
    ensures (n * k) as real == n as real * k as real
  {
    if k > 0 {
      ProductReal(n, k - 1);
      assert n * k == n * (k - 1) + n;
      assert n as real * k as real == n as real * (k - 1) as real + n as real;
    }
  }

  lemma Regroup(y: real, k: real, p: real)
    ensures (y * k) * p == (y * p) * k
  {
  }

  lemma Quotient(w: real, m: real, p: real)
    requires p > 0.0 && w * p == m
    ensures m / p == w
  {
    Cancels(w, p);
  }

  lemma ScaledSteps(y: real, n: int, k: nat, p: real)
    requires y * p == n as real
    ensures (y * k as real) * p == (n * k) as real
  {
    Regroup(y, k as real, p);
    ProductReal(n, k);
  }

  /** A number on the grid is rounded to itself, and so is any whole multiple of it. */
  lemma GridStays(y: real, n: int, k: nat, p: real)
    requires p > 0.0 && y * p == n as real
    ensures RoundTo(y * k as real, p) == y * k as real
  {
    ScaledSteps(y, n, k, p);
    StepsOfInteger(n * k);
    assert Steps((y * k as real) * p) == n * k;
    Quotient(y * k as real, (n * k) as real, p);
  }

  lemma MultiplesStay(x: real, y: real, k: nat, p: real)
    requires p > 0.0 && y == RoundTo(x, p)
    ensures RoundTo(y * k as real, p) == y * k as real
  {
    Cancels(Steps(x * p) as real, p);
    GridStays(y, Steps(x * p), k, p);
  }

  lemma BoundsScale(daily: real, hourly: real, e: real)
    requires Within(daily, hourly * 24.0, e)
    ensures Within(daily * 30.0, hourly * 720.0, 30.0 * e) && Within(daily * 360.0, hourly * 8640.0, 360.0 * e)
  {
  }

  /** Only the first rounding of the chain loses anything: the monthly and the yearly figure are exact multiples
      of the daily one. */
  lemma ChainIsExactAfterDaily(hourly: real, decimals: nat)
    ensures Monthly(hourly, decimals) == Daily(hourly, decimals) * 30.0
    ensures Yearly(hourly, decimals) == Daily(hourly, decimals) * 360.0
  {
    MultiplesStay(hourly * 24.0, Daily(hourly, decimals), 30, PowerOfTen(decimals));
    MultiplesStay(hourly * 24.0, Daily(hourly, decimals), 360, PowerOfTen(decimals));
  }

  /** So the figures are off by at most half a unit, 30 and 360 half units. */
  lemma ChainBounds(hourly: real, decimals: nat)
    ensures Within(Daily(hourly, decimals), hourly * 24.0, HalfUnit(decimals))
    ensures Within(Monthly(hourly, decimals), hourly * 720.0, 30.0 * HalfUnit(decimals))
    ensures Within(Yearly(hourly, decimals), hourly * 8640.0, 360.0 * HalfUnit(decimals))
  {
    RoundToNear(hourly * 24.0, PowerOfTen(decimals));
    ChainIsExactAfterDaily(hourly, decimals);
    BoundsScale(Daily(hourly, decimals), hourly, HalfUnit(decimals));
  }

  lemma Halves(p: real)
    requires p > 0.0
    ensures 1.0 / p == 0.5 / p + 0.5 / p
  {
  }

  lemma HalfStep(x: real)
    requires x == 0.5
    ensures Steps(x) == 1
  {
    assert x + 0.5 == 1.0;
  }

  lemma HalfRoundsUp(p: real)
    requires p > 0.0
    ensures RoundTo(0.5 / p, p) == 0.5 / p + 0.5 / p
  {
    Cancels(0.5, p);
    HalfStep(0.5 / p * p);
    assert Steps(0.5 / p * p) == 1;
    Halves(p);
  }

  /** The bounds are reached: an hourly amount whose day is half a unit is off by exactly that. */
  lemma BoundIsReached(decimals: nat)
    ensures var hourly := HalfUnit(decimals) / 24.0;
      && Daily(hourly, decimals) - hourly * 24.0 == HalfUnit(decimals)
      && Yearly(hourly, decimals) - hourly * 8640.0 == 360.0 * HalfUnit(decimals)
  {
    var e := HalfUnit(decimals);
    HalfRoundsUp(PowerOfTen(decimals));
    assert (e / 24.0) * 24.0 == e;
    ChainIsExactAfterDaily(e / 24.0, decimals);
  }

  lemma Returned(tft: real, usd: real, back: real, rate: real, e: real)
    requires rate > 0.0 && Within(usd, tft * rate, e) && Within(back, usd / rate, e)
    ensures Within(back, tft, e / rate + e)
  {
    Divided(usd, tft * rate, e, rate);
    Quotient(tft, tft * rate, rate);
  }

  /** Converting to the other currency and back loses at most half a unit each way, the first seen through the
      rate. */
  lemma ThereAndBack(tft: real, rate: real, decimals: nat)
    requires rate > 0.0
    ensures Within(ToTFT(ToUSD(tft, rate, decimals), rate, decimals), tft,
              HalfUnit(decimals) / rate + HalfUnit(decimals))
  {
    var usd := ToUSD(tft, rate, decimals);
    RoundToNear(tft * rate, PowerOfTen(decimals));
    RoundToNear(usd / rate, PowerOfTen(decimals));
    Returned(tft, usd, ToTFT(usd, rate, decimals), rate, HalfUnit(decimals));
  }
}
