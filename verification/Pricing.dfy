/** backend/internal/monetization/pricing.go and SplitKDV of invoicing.go, with the copies the
    web client keeps in frontend/lib/packOffers.ts. Credits and kurus are whole numbers on the
    server; the client computes with numbers, here reals. */
module Pricing {
  import opened Prelude

  const CustomMinCredits := 50
  const CustomMaxCredits := 10000

  datatype PricingError = InvalidCustomCredits | UnknownProduct

  // Rounding down and up; the numerators here are never negative.
  function FloorDiv(n: int, d: int): int
    requires d > 0
  {
    n / d
  }

  function CeilDiv(n: int, d: int): int
    requires d > 0
  {
    (n + d - 1) / d
  }

  function ApplyBonus(base: int, percent: int): int {
    if base <= 0 then 0
    else if percent <= 0 then base
    else base + FloorDiv(base * percent, 100)
  }

  function CustomAmountKurus(credits: int, packCredits: int, packKurus: int): Result<int, PricingError> {
    if credits < CustomMinCredits || credits > CustomMaxCredits then Err(InvalidCustomCredits)
    else if packCredits <= 0 || packKurus <= 0 then Err(UnknownProduct)
    else Ok(CeilDiv(credits * packKurus, packCredits))
  }

  // ---------------------------------------------------------------- division, once and for all

  // q is the largest whole number of d's in n.
  predicate IsFloor(q: int, n: int, d: int) { q * d <= n < q * d + d }

  // q is the smallest whole number of d's covering n.
  predicate IsCeil(q: int, n: int, d: int) { q * d - d < n <= q * d }

  lemma Quotient(n: int, d: int)
    requires d > 0
    ensures IsFloor(FloorDiv(n, d), n, d) && IsCeil(CeilDiv(n, d), n, d)
  {
  }

  lemma CeilIsLeast(q: int, n: int, d: int, other: int)
    requires d > 0 && IsCeil(q, n, d) && other * d >= n
    ensures q <= other
  {
    Ordered(q, other, d);
  }

  lemma FloorIsGreatest(q: int, n: int, d: int, other: int)
    requires d > 0 && IsFloor(q, n, d) && other * d <= n
    ensures other <= q
  {
    Ordered(other, q, d);
  }

  lemma Spread(a: int, b: int, c: int)
    ensures (a + b) * c == a * c + b * c
  {
  }

  lemma Ordered(p: int, q: int, d: int)
    requires d > 0 && p * d < q * d + d
    ensures p <= q
  {
    Spread(q, p - q, d);
    assert p - q >= 1 ==> (p - q) * d >= 1 * d;
  }

  lemma FloorsOrdered(p: int, m: int, q: int, n: int, d: int)
    requires d > 0 && m <= n && IsFloor(p, m, d) && IsFloor(q, n, d)
    ensures p <= q
  {
    Ordered(p, q, d);
  }

  // Rounding each part down loses at least what rounding the whole loses.
  lemma FloorsOfParts(p: int, m: int, q: int, n: int, r: int, d: int)
    requires d > 0 && IsFloor(p, m, d) && IsFloor(q, n, d) && IsFloor(r, m + n, d)
    ensures p + q <= r
  {
    Spread(p, q, d);
    Ordered(p + q, r, d);
  }

  lemma CeilsOfParts(p: int, m: int, q: int, n: int, r: int, d: int)
    requires d > 0 && IsCeil(p, m, d) && IsCeil(q, n, d) && IsCeil(r, m + n, d)
    ensures r <= p + q
  {
    Spread(p, q, d);
    Ordered(r, p + q, d);
  }

  // ---------------------------------------------------------------- custom amounts

  // A custom order costs the least whole number of kurus not under the pack's rate.
  lemma CustomPriceIsLeast(credits: int, packCredits: int, packKurus: int)
    requires CustomAmountKurus(credits, packCredits, packKurus).Ok?
    ensures
      var price := CustomAmountKurus(credits, packCredits, packKurus).value;
      && price * packCredits >= credits * packKurus
      && forall other: int :: other * packCredits >= credits * packKurus ==> price <= other
  {
    var n := credits * packKurus;
    Quotient(n, packCredits);
    forall other: int | other * packCredits >= n ensures CeilDiv(n, packCredits) <= other {
      CeilIsLeast(CeilDiv(n, packCredits), n, packCredits, other);
    }
  }

  function Total(parts: seq<int>): int {
    if parts == [] then 0 else Total(parts[1..]) + parts[0]
  }

  function TotalPrice(parts: seq<int>, packCredits: int, packKurus: int): int
    requires packCredits > 0
  {
    if parts == [] then 0
    else TotalPrice(parts[1..], packCredits, packKurus) + CeilDiv(parts[0] * packKurus, packCredits)
  }

  lemma {:induction false} PartsCoverWhole(parts: seq<int>, packCredits: int, packKurus: int)
    requires packCredits > 0
    ensures TotalPrice(parts, packCredits, packKurus) >= CeilDiv(Total(parts) * packKurus, packCredits)
  {
    hide CeilDiv, IsCeil;
    if parts == [] {
      assert Total(parts) * packKurus == 0;
      Quotient(0, packCredits);
      CoverOfNothing(CeilDiv(0, packCredits), packCredits);
    } else {
      PartsCoverWhole(parts[1..], packCredits, packKurus);
      CeilDivOfParts(Total(parts[1..]), parts[0], packKurus, packCredits);
    }
  }

  lemma CoverOfNothing(q: int, d: int)
    requires d > 0 && IsCeil(q, 0, d)
    ensures q <= 0
  {
    CeilIsLeast(q, 0, d, 0);
  }

  lemma CeilDivOfParts(a: int, b: int, c: int, d: int)
    requires d > 0
    ensures CeilDiv((a + b) * c, d) <= CeilDiv(a * c, d) + CeilDiv(b * c, d)
  {
    hide CeilDiv, IsCeil;
    Spread(a, b, c);
    Quotient(a * c, d);
    Quotient(b * c, d);
    Quotient(a * c + b * c, d);
    CeilsOfParts(CeilDiv(a * c, d), a * c, CeilDiv(b * c, d), b * c, CeilDiv((a + b) * c, d), d);
  }

  lemma FloorDivOfParts(a: int, b: int, c: int, d: int)
    requires d > 0
    ensures FloorDiv(a * c, d) + FloorDiv(b * c, d) <= FloorDiv((a + b) * c, d)
  {
    hide FloorDiv, IsFloor;
    Spread(a, b, c);
    Quotient(a * c, d);
    Quotient(b * c, d);
    Quotient(a * c + b * c, d);
    FloorsOfParts(FloorDiv(a * c, d), a * c, FloorDiv(b * c, d), b * c, FloorDiv((a + b) * c, d), d);
  }

  // However a custom order is split into custom orders, the parts never cost less together.
  lemma {:induction false} SplittingIsNeverCheaper(parts: seq<int>, packCredits: int, packKurus: int)
    requires CustomAmountKurus(Total(parts), packCredits, packKurus).Ok?
    requires forall i :: 0 <= i < |parts| ==> CustomAmountKurus(parts[i], packCredits, packKurus).Ok?
    ensures SumOfPrices(parts, packCredits, packKurus) >= CustomAmountKurus(Total(parts), packCredits, packKurus).value
  {
    SumIsTotal(parts, packCredits, packKurus);
    PartsCoverWhole(parts, packCredits, packKurus);
  }

  function SumOfPrices(parts: seq<int>, packCredits: int, packKurus: int): int
    requires forall i :: 0 <= i < |parts| ==> CustomAmountKurus(parts[i], packCredits, packKurus).Ok?
  {
    if parts == [] then 0
    else SumOfPrices(parts[1..], packCredits, packKurus) + CustomAmountKurus(parts[0], packCredits, packKurus).value
  }

  lemma {:induction false} SumIsTotal(parts: seq<int>, packCredits: int, packKurus: int)
    requires packCredits > 0
    requires forall i :: 0 <= i < |parts| ==> CustomAmountKurus(parts[i], packCredits, packKurus).Ok?
    ensures SumOfPrices(parts, packCredits, packKurus) == TotalPrice(parts, packCredits, packKurus)
  {
    if parts != [] { SumIsTotal(parts[1..], packCredits, packKurus); }
  }

  // ---------------------------------------------------------------- bonus credits

  // The bonus is the greatest whole number of credits within the promised percentage.
  lemma BonusIsGreatest(base: int, percent: int)
    requires base > 0 && percent > 0
    ensures
      var bonus := ApplyBonus(base, percent) - base;
      && 100 * bonus <= base * percent
      && forall more: int :: 100 * more <= base * percent ==> more <= bonus
  {
    var n := base * percent;
    Quotient(n, 100);
    forall more: int | 100 * more <= n ensures more <= FloorDiv(n, 100) {
      FloorIsGreatest(FloorDiv(n, 100), n, 100, more);
    }
  }

  function TotalWithBonus(parts: seq<int>, percent: int): int {
    if parts == [] then 0 else TotalWithBonus(parts[1..], percent) + ApplyBonus(parts[0], percent)
  }

  // Splitting an order never raises the credits it brings.
  lemma {:induction false} SplittingNeverRaisesBonus(parts: seq<int>, percent: int)
    requires forall i :: 0 <= i < |parts| ==> parts[i] > 0
    ensures 0 <= Total(parts) <= TotalWithBonus(parts, percent) <= ApplyBonus(Total(parts), percent)
  {
    if parts != [] {
      SplittingNeverRaisesBonus(parts[1..], percent);
      BonusOfParts(Total(parts[1..]), parts[0], percent);
      BonusNeverTakes(parts[0], percent);
    }
  }

  lemma BonusNeverTakes(base: int, percent: int)
    requires base > 0
    ensures ApplyBonus(base, percent) >= base
  {
    if percent > 0 {
      BonusIsGreatest(base, percent);
      assert 100 * 0 <= base * percent;
    }
  }

  lemma BonusOfParts(a: int, b: int, percent: int)
    requires a >= 0 && b > 0
    ensures ApplyBonus(a, percent) + ApplyBonus(b, percent) <= ApplyBonus(a + b, percent)
  {
    hide FloorDiv;
    FloorDivOfParts(a, b, percent, 100);
  }

  // ---------------------------------------------------------------- value added tax

  datatype Split = Split(net: int, tax: int, gross: int)

  // The rate is in basis points; gross includes the tax.
  function SplitKDV(grossKurus: int, rateBPS: int): Split {
    if grossKurus <= 0 then Split(0, 0, grossKurus)
    else
      var denom := 10000 + if rateBPS < 0 then 0 else rateBPS;
      var net := FloorDiv(grossKurus * 10000, denom);
      Split(net, grossKurus - net, grossKurus)
  }

  // Net is the exact net rounded down, tax the exact tax rounded up, and nothing is lost.
  lemma SplitIsExact(gross: int, rate: int)
    requires gross > 0
    ensures
      var s := SplitKDV(gross, rate);
      var r := if rate < 0 then 0 else rate;
      && s.net + s.tax == s.gross == gross && s.net >= 0 && s.tax >= 0
      && IsFloor(s.net, gross * 10000, 10000 + r)
      && IsCeil(s.tax, gross * r, 10000 + r)
  {
    var r := if rate < 0 then 0 else rate;
    Quotient(gross * 10000, 10000 + r);
    SplitBounds(gross, r, FloorDiv(gross * 10000, 10000 + r));
  }

  lemma SplitBounds(gross: int, r: int, net: int)
    requires gross > 0 && r >= 0 && IsFloor(net, gross * 10000, 10000 + r)
    ensures 0 <= net <= gross && IsCeil(gross - net, gross * r, 10000 + r)
  {
    var d := 10000 + r;
    Spread(10000, r, gross);
    Spread(gross - net, net, d);
    assert gross * d == gross * 10000 + gross * r;
    assert gross * r >= 0;
    Ordered(net, gross, d);
    Ordered(0, net, d);
  }

  // A larger payment has at least as much net and at least as much tax.
  lemma SplitIsMonotone(small: int, large: int, rate: int)
    requires small <= large
    ensures SplitKDV(small, rate).net <= SplitKDV(large, rate).net
    ensures SplitKDV(small, rate).tax <= SplitKDV(large, rate).tax
  {
    hide FloorDiv, IsFloor, IsCeil;
    if small > 0 {
      SplitIsExact(small, rate);
      SplitIsExact(large, rate);
      PartsOrdered(small, SplitKDV(small, rate), large, SplitKDV(large, rate), if rate < 0 then 0 else rate);
    } else if large > 0 {
      SplitIsExact(large, rate);
    }
  }

  lemma PartsOrdered(small: int, s: Split, large: int, l: Split, r: int)
    requires small <= large && r >= 0
    requires IsFloor(s.net, small * 10000, 10000 + r) && IsFloor(l.net, large * 10000, 10000 + r)
    requires IsCeil(s.tax, small * r, 10000 + r) && IsCeil(l.tax, large * r, 10000 + r)
    ensures s.net <= l.net && s.tax <= l.tax
  {
    hide IsFloor, IsCeil;
    FloorsOrdered(s.net, small * 10000, l.net, large * 10000, 10000 + r);
    Scaled(small, large, r);
    CeilsOrdered(s.tax, small * r, l.tax, large * r, 10000 + r);
  }

  lemma Scaled(a: int, b: int, c: nat)
    requires a <= b
    ensures a * c <= b * c
  {
  }

  lemma CeilsOrdered(p: int, m: int, q: int, n: int, d: int)
    requires d > 0 && m <= n && IsCeil(p, m, d) && IsCeil(q, n, d)
    ensures p <= q
  {
    Ordered(p, q, d);
  }

  // ---------------------------------------------------------------- the client's copies

  // Math.floor and Math.ceil
  function Ceil(x: real): int { -((-x).Floor) }

  function ClientGrantedCredits(base: real, promoPercent: real): int {
    if base <= 0.0 then 0
    else if promoPercent <= 0.0 then base.Floor
    else base.Floor + (base.Floor as real * promoPercent / 100.0).Floor
  }

  function ClientCustomAmountKurus(credits: real, rateCredits: real, rateKurus: real): int {
    if credits <= 0.0 || rateCredits <= 0.0 || rateKurus <= 0.0 then 0
    else Ceil(credits * rateKurus / rateCredits)
  }

  // A real between two whole numbers one apart is pinned by them.
  lemma FloorOfQuotient(n: int, d: int)
    requires d > 0
    ensures (n as real / d as real).Floor == FloorDiv(n, d)
  {
    Quotient(n, d);
    var x := n as real / d as real;
    assert x * d as real == n as real;
    FloorIs(x, FloorDiv(n, d), n, d);
  }

  lemma FloorIs(x: real, q: int, n: int, d: int)
    requires d > 0 && x * d as real == n as real && IsFloor(q, n, d)
    ensures x.Floor == q
  {
    var rest := n - q * d;
    assert 0 <= rest < d;
    Residue(x, q, n, d);
    Fraction(x - q as real, rest, d);
  }

  lemma Residue(x: real, q: int, n: int, d: int)
    requires x * d as real == n as real
    ensures (x - q as real) * d as real == (n - q * d) as real
  {
    Cast(q, d);
    SpreadReal(x, q as real, d as real);
  }

  lemma SpreadReal(x: real, y: real, d: real)
    ensures (x - y) * d == x * d - y * d
  {
  }

  lemma Fraction(t: real, rest: int, d: int)
    requires 0 <= rest < d && t * d as real == rest as real
    ensures 0.0 <= t < 1.0
  {
    NotBelow(t, 0.0, d as real);
    NotBelow(1.0, t, d as real);
  }

  lemma Cast(q: int, d: int)
    ensures (q * d) as real == q as real * d as real
  {
  }

  lemma NotBelow(x: real, y: real, d: real)
    requires d > 0.0
    ensures x * d >= y * d ==> x >= y
    ensures x * d > y * d ==> x > y
  {
  }

  // What the shop shows is what the server will grant.
  lemma ClientBonusAgrees(base: int, percent: int)
    ensures ClientGrantedCredits(base as real, percent as real) == ApplyBonus(base, percent)
  {
    if base > 0 && percent > 0 {
      FloorOfQuotient(base * percent, 100);
      assert (base * percent) as real == base as real * percent as real;
    }
  }

  // What the shop shows is what the server will charge, for every order the server accepts; the
  // client itself does not check the range.
  lemma ClientPriceAgrees(credits: int, packCredits: int, packKurus: int)
    requires CustomAmountKurus(credits, packCredits, packKurus).Ok?
    ensures ClientCustomAmountKurus(credits as real, packCredits as real, packKurus as real)
            == CustomAmountKurus(credits, packCredits, packKurus).value
  {
    var n := credits * packKurus;
    hide FloorDiv, CeilDiv;
    Cast(credits, packKurus);
    MirroredQuotient(n, packCredits);
    FloorOfQuotient(-n, packCredits);
    MirroredFloor(n, packCredits);
  }

  lemma MirroredQuotient(n: int, d: int)
    requires d > 0
    ensures -(n as real / d as real) == (-n) as real / d as real
  {
  }

  lemma MirroredFloor(n: int, d: int)
    requires d > 0
    ensures -FloorDiv(-n, d) == CeilDiv(n, d)
  {
    hide FloorDiv, CeilDiv;
    Quotient(n, d);
    Quotient(-n, d);
    var up, down := CeilDiv(n, d), FloorDiv(-n, d);
    Spread(down, -down, d);
    CeilIsLeast(up, n, d, -down);
    Ordered(-down, up, d);
  }
}
