/** The price calculator, over real numbers. */
module Pricing {

  datatype Policy = Policy(cu: real, su: real, ipu: real, nu: real, discountForDedicationNodes: real)

  datatype Options = Options(cru: real, mru: real, hru: real, sru: real, nu: real, ipv4u: bool, certified: bool,
      balance: real)

  datatype Package = Package(name: string, duration: real, discount: real)

  /** In the order the packages are listed. */
  const PACKAGES: seq<Package> := [
    Package("none", 0.0, 0.0), Package("default", 1.5, 20.0), Package("bronze", 3.0, 30.0),
    Package("silver", 6.0, 40.0), Package("gold", 18.0, 60.0)]

  const UNITS := 10000000.0

  datatype PricingInfo = PricingInfo(dedicatedPrice: real, dedicatedPackage: Package, sharedPrice: real,
      sharedPackage: Package)

  // ---- Units ----

  function Max(a: real, b: real): real { if a > b then a else b }

  function Min(a: real, b: real): real { if a > b then b else a }

  /** The cheapest of three ratios of memory to cores. */
  function CalCU(cru: real, mru: real): real {
    Min(Min(Max(mru / 4.0, cru / 2.0), Max(mru / 8.0, cru)), Max(mru / 2.0, cru / 4.0))
  }

  function CalSU(hru: real, sru: real): real { hru / 1200.0 + sru / 200.0 }

  function CalNU(nu: real): real { nu * 1000.0 / UNITS }

  datatype Units = Units(cu: real, su: real, ip: real, nu: real)

  function UnitsOf(o: Options): Units {
    Units(CalCU(o.cru, o.mru), CalSU(o.hru, o.sru), if o.ipv4u then 1.0 else 0.0, CalNU(o.nu))
  }

  function Hourly(p: Policy, u: Units): real { u.cu * p.cu + u.su * p.su + u.ip * p.ipu + u.nu * p.nu }

  /** `pricing`: certified nodes cost a quarter more. */
  function Monthly(p: Policy, o: Options): real {
    Hourly(p, UnitsOf(o)) * (if o.certified then 1.25 else 1.0) * 24.0 * 30.0
  }

  // ---- Packages ----

  predicate Affordable(balance: real, price: real, k: nat)
    requires k < |PACKAGES|
  {
    balance > price * PACKAGES[k].duration
  }

  /** The last of the first `n` packages that is affordable; the first one when none is. */
  function Best(balance: real, price: real, n: nat): (k: nat)
    requires 0 < n <= |PACKAGES|
    ensures k < n
    ensures k > 0 ==> Affordable(balance, price, k)
    ensures forall j :: k < j < n ==> !Affordable(balance, price, j)
  {
    if n == 1 then 0
    else if Affordable(balance, price, n - 1) then n - 1
    else Best(balance, price, n - 1)
  }

  function PackageFor(balance: real, price: real): Package {
    PACKAGES[Best(balance, price, |PACKAGES|)]
  }

  function Less(price: real, percent: real): real { price - price * (percent / 100.0) }

  function Discounted(price: real, package: Package): real { Less(price, package.discount) / UNITS }

  /** One pass over the packages for both prices. */
  method PickPackages(balance: real, dedicatedPrice: real, sharedPrice: real) returns (dedicated: nat, shared: nat)
    ensures dedicated == Best(balance, dedicatedPrice, |PACKAGES|) && shared == Best(balance, sharedPrice, |PACKAGES|)
  {
    dedicated, shared := 0, 0;
    for k := 0 to |PACKAGES|
      invariant dedicated == (if k == 0 then 0 else Best(balance, dedicatedPrice, k))
      invariant shared == (if k == 0 then 0 else Best(balance, sharedPrice, k))
    {
      if balance > dedicatedPrice * PACKAGES[k].duration {
        dedicated := k;
      }
      if balance > sharedPrice * PACKAGES[k].duration {
        shared := k;
      }
    }
  }

  function Balance(balance: real, tftPrice: real): real {
    if balance != 0.0 then tftPrice * balance * UNITS else 0.0
  }

  /** The price of `month` once the package its balance affords is taken off. */
  function Final(month: real, balance: real): real { Discounted(month, PackageFor(balance, month)) }

  /** `calculate`, from the monthly price and the discount for dedicated nodes. */
  method Calculate(month: real, dedicatedDiscount: real, tfts: real, tftPrice: real) returns (r: PricingInfo)
    ensures var balance, dedicated := Balance(tfts, tftPrice), Less(month, dedicatedDiscount);
      r == PricingInfo(Final(dedicated, balance), PackageFor(balance, dedicated), Final(month, balance),
          PackageFor(balance, month))
  {
    var balance := 0.0;
    var dedicatedPrice := Less(month, dedicatedDiscount);
    var sharedPrice := month;
    if tfts != 0.0 {
      balance := tftPrice * tfts * UNITS;
    }
    var dedicated, shared := PickPackages(balance, dedicatedPrice, sharedPrice);
    r := PricingInfo(Discounted(dedicatedPrice, PACKAGES[dedicated]), PACKAGES[dedicated],
                     Discounted(sharedPrice, PACKAGES[shared]), PACKAGES[shared]);
  }

  // ---- Coherence ----

  /** Longer packages are cheaper: the packages are listed by growing duration and discount. */
  lemma PackagesAscend()
    ensures forall i, j :: 0 <= i < j < |PACKAGES| ==>
              PACKAGES[i].duration < PACKAGES[j].duration && PACKAGES[i].discount < PACKAGES[j].discount
    ensures forall i :: 0 <= i < |PACKAGES| ==> 0.0 <= PACKAGES[i].duration && 0.0 <= PACKAGES[i].discount <= 60.0
  {
  }

  /** A number of compute units is enough exactly when, at one of the three ratios a unit comes in, it covers
      both the memory and the cores. */
  lemma EnoughUnits(cru: real, mru: real, x: real)
    ensures CalCU(cru, mru) <= x <==>
              (mru <= 4.0 * x && cru <= 2.0 * x) || (mru <= 8.0 * x && cru <= x) || (mru <= 2.0 * x && cru <= 4.0 * x)
  {
    assert Max(mru / 4.0, cru / 2.0) <= x <==> mru <= 4.0 * x && cru <= 2.0 * x;
    assert Max(mru / 8.0, cru) <= x <==> mru <= 8.0 * x && cru <= x;
    assert Max(mru / 2.0, cru / 4.0) <= x <==> mru <= 2.0 * x && cru <= 4.0 * x;
  }

  lemma Scales(a: real, b: real, x: real)
    requires a <= b && 0.0 <= x
    ensures a * x <= b * x
  {
  }

  lemma ScaledPair(a: real, b: real, x: real)
    requires 0.0 <= a <= b && 0.0 <= x
    ensures 0.0 <= a * x <= b * x
  {
    Scales(0.0, a, x);
    Scales(a, b, x);
  }

  /** A cheaper configuration or a larger balance affords at least the same packages. */
  lemma AffordMore(balance: real, more: real, price: real, less: real, k: nat)
    requires balance <= more && less <= price && k < |PACKAGES| && Affordable(balance, price, k)
    ensures Affordable(more, less, k)
  {
    PackagesAscend();
    Scales(less, price, PACKAGES[k].duration);
  }

  /** The loop picks the largest discount whose package the balance covers. */
  lemma LargestAffordable(balance: real, price: real, k: nat)
    requires k < |PACKAGES| && Affordable(balance, price, k)
    ensures PACKAGES[k].discount <= PackageFor(balance, price).discount
    ensures exists j :: 0 <= j < |PACKAGES| && PackageFor(balance, price) == PACKAGES[j] &&
              (j == 0 || Affordable(balance, price, j))
  {
    PackagesAscend();
    var b := Best(balance, price, |PACKAGES|);
    assert k <= b;
  }

  lemma DiscountsOrdered(balance: real, more: real, price: real, less: real)
    requires balance <= more && less <= price
    ensures PackageFor(balance, price).discount <= PackageFor(more, less).discount
  {
    PackagesAscend();
    var b, c := Best(balance, price, |PACKAGES|), Best(more, less, |PACKAGES|);
    if b > 0 {
      AffordMore(balance, more, price, less, b);
    }
    assert b <= c;
  }

  lemma LessOrdered(p: real, q: real, d: real, e: real)
    requires 0.0 <= p <= q && 0.0 <= e <= d <= 100.0
    ensures 0.0 <= Less(p, d) <= Less(q, e) <= q
  {
    var x, y := 1.0 - d / 100.0, 1.0 - e / 100.0;
    ScaledPair(p, q, x);
    Scales(x, y, q);
    Scales(y, 1.0, q);
    LessIs(p, d);
    LessIs(q, e);
    assert q * x == x * q && q * y == y * q;
  }

  lemma LessIs(p: real, d: real)
    ensures Less(p, d) == p * (1.0 - d / 100.0)
  {
  }

  /** The final price falls with the balance and grows with the price before the package. */
  lemma FinalOrdered(balance: real, more: real, price: real, less: real)
    requires balance <= more && 0.0 <= less <= price
    ensures Final(less, more) <= Final(price, balance)
  {
    PackagesAscend();
    DiscountsOrdered(balance, more, price, less);
    LessOrdered(less, price, PackageFor(more, less).discount, PackageFor(balance, price).discount);
  }

  predicate Sane(p: Policy) {
    0.0 <= p.cu && 0.0 <= p.su && 0.0 <= p.ipu && 0.0 <= p.nu && 0.0 <= p.discountForDedicationNodes <= 100.0
  }

  predicate Sized(o: Options) { 0.0 <= o.cru && 0.0 <= o.mru && 0.0 <= o.hru && 0.0 <= o.sru && 0.0 <= o.nu }

  /** `q` asks for at least as much of everything. */
  predicate AsksMore(o: Options, q: Options) {
    && o.cru <= q.cru && o.mru <= q.mru && o.hru <= q.hru && o.sru <= q.sru && o.nu <= q.nu
    && (o.ipv4u ==> q.ipv4u) && (o.certified ==> q.certified)
  }

  predicate NoMore(u: Units, v: Units) {
    0.0 <= u.cu <= v.cu && 0.0 <= u.su <= v.su && 0.0 <= u.ip <= v.ip && 0.0 <= u.nu <= v.nu
  }

  lemma UnitsOrdered(o: Options, q: Options)
    requires Sized(o) && AsksMore(o, q)
    ensures NoMore(UnitsOf(o), UnitsOf(q))
  {
  }

  lemma SumOrdered(a: real, b: real, c: real, d: real, e: real, f: real, g: real, h: real)
    requires 0.0 <= a <= b && 0.0 <= c <= d && 0.0 <= e <= f && 0.0 <= g <= h
    ensures 0.0 <= a + c + e + g <= b + d + f + h
  {
  }

  lemma HourlyOrdered(p: Policy, u: Units, v: Units)
    requires Sane(p) && NoMore(u, v)
    ensures 0.0 <= Hourly(p, u) <= Hourly(p, v)
  {
    ScaledPair(u.cu, v.cu, p.cu);
    ScaledPair(u.su, v.su, p.su);
    ScaledPair(u.ip, v.ip, p.ipu);
    ScaledPair(u.nu, v.nu, p.nu);
    SumOrdered(u.cu * p.cu, v.cu * p.cu, u.su * p.su, v.su * p.su, u.ip * p.ipu, v.ip * p.ipu, u.nu * p.nu,
        v.nu * p.nu);
  }

  lemma FactorOrdered(a: real, b: real, c: bool, d: bool)
    requires 0.0 <= a <= b && (c ==> d)
    ensures 0.0 <= a * (if c then 1.25 else 1.0) * 24.0 * 30.0 <= b * (if d then 1.25 else 1.0) * 24.0 * 30.0
  {
  }

  lemma MonthlyOrdered(p: Policy, o: Options, q: Options)
    requires Sane(p) && Sized(o) && AsksMore(o, q)
    ensures 0.0 <= Monthly(p, o) <= Monthly(p, q)
  {
    var u, v := UnitsOf(o), UnitsOf(q);
    UnitsOrdered(o, q);
    HourlyOrdered(p, u, v);
    FactorOrdered(Hourly(p, u), Hourly(p, v), o.certified, q.certified);
  }

  lemma BalanceOrdered(tfts: real, fewer: real, tftPrice: real)
    requires 0.0 <= tftPrice && 0.0 <= fewer <= tfts
    ensures Balance(fewer, tftPrice) <= Balance(tfts, tftPrice)
  {
    ScaledPair(fewer, tfts, tftPrice);
    assert tftPrice * fewer == fewer * tftPrice && tftPrice * tfts == tfts * tftPrice;
  }

  /** Asking for more with no larger balance never costs less, across every package threshold: both prices
      grow with the resources and fall with the balance. */
  lemma PricesOrdered(p: Policy, o: Options, q: Options, tfts: real, fewer: real, tftPrice: real)
    requires Sane(p) && Sized(o) && AsksMore(o, q) && 0.0 <= tftPrice && 0.0 <= fewer <= tfts
    ensures var less, more := Monthly(p, o), Monthly(p, q);
      && Final(less, Balance(tfts, tftPrice)) <= Final(more, Balance(fewer, tftPrice))
      && Final(Less(less, p.discountForDedicationNodes), Balance(tfts, tftPrice))
           <= Final(Less(more, p.discountForDedicationNodes), Balance(fewer, tftPrice))
  {
    var less, more, d := Monthly(p, o), Monthly(p, q), p.discountForDedicationNodes;
    MonthlyOrdered(p, o, q);
    LessOrdered(less, more, d, d);
    BalanceOrdered(tfts, fewer, tftPrice);
    FinalOrdered(Balance(fewer, tftPrice), Balance(tfts, tftPrice), more, less);
    FinalOrdered(Balance(fewer, tftPrice), Balance(tfts, tftPrice), Less(more, d), Less(less, d));
  }

  /** A dedicated node never costs more than sharing it, although each price has a package of its own. */
  lemma DedicatedIsCheaper(month: real, dedicatedDiscount: real, balance: real)
    requires 0.0 <= month && 0.0 <= dedicatedDiscount <= 100.0
    ensures Final(Less(month, dedicatedDiscount), balance) <= Final(month, balance)
    ensures PackageFor(balance, month).discount <= PackageFor(balance, Less(month, dedicatedDiscount)).discount
  {
    LessOrdered(month, month, dedicatedDiscount, dedicatedDiscount);
    FinalOrdered(balance, balance, month, Less(month, dedicatedDiscount));
    DiscountsOrdered(balance, balance, month, Less(month, dedicatedDiscount));
  }
}
