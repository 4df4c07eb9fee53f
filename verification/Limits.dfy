/** The limits of a leasing policy, folded one after another into the available amounts. */
module Limits {
  import opened Wrappers
  import opened Quantities
  import Int64

  /** One policy limit. Both parts are optional; a zero quantity and a percentage of zero or less limit nothing. */
  datatype Limit = Limit(resource: string, quantity: Option<Quantity>, percent: Option<int>)

  /** The unit that percentages are computed in: milli-units for DecimalSI, whole units otherwise. */
  function Unit(f: Format): int {
    if f.DecimalSI? then 1_000_000 else NANO
  }

  function RoundUp(amount: nat, f: Format): (r: int)
    ensures r >= 0
  {
    if f.DecimalSI? then (amount + 999_999) / 1_000_000 else (amount + 999_999_999) / 1_000_000_000
  }

  /** A quantity in its unit, rounded away from zero. */
  function Scaled(q: Quantity): int {
    if q.amount >= 0 then RoundUp(q.amount, q.format) else -RoundUp(-q.amount, q.format)
  }

  function PercentLimit(q: Quantity, percent: int): Quantity {
    if percent <= 0 || percent > 100 then ZERO
    else Quantity(Share(Scaled(q), percent) * Unit(q.format), q.format)
  }

  /** A percentage in int64 arithmetic: the product may wrap around, and the division truncates. */
  function Share(value: int, percent: int): int {
    Int64.Quotient(Int64.Wrap(Int64.Wrap(value) * percent), 100)
  }

  function QuantityPart(l: Limit): seq<Quantity> {
    if l.quantity.Some? && l.quantity.value.amount != 0 then [l.quantity.value] else []
  }

  function PercentPart(l: Limit, q: Quantity): seq<Quantity> {
    if l.percent.Some? && l.percent.value > 0 then [PercentLimit(q, l.percent.value)] else []
  }

  /** The more restrictive part of a limit, if it has any. */
  function Effective(l: Limit, q: Quantity): Option<Quantity> {
    var parts := QuantityPart(l) + PercentPart(l, q);
    if parts == [] then None
    else if |parts| == 2 && parts[1].amount < parts[0].amount then Some(parts[1])
    else Some(parts[0])
  }

  /** The available amount after one limit on it. */
  function Limited(q: Quantity, l: Limit): Quantity {
    var e := Effective(l, q);
    if e.Some? && e.value.amount < q.amount then e.value else q
  }

  /** The available amount of a resource after a list of limits. */
  function Folded(q: Quantity, resource: string, limits: seq<Limit>): Quantity {
    if limits == [] then q
    else
      var before := Folded(q, resource, limits[..|limits| - 1]);
      var l := limits[|limits| - 1];
      if l.resource == resource then Limited(before, l) else before
  }

  // ---------- The loops ----------

  method CalculateEffectiveLimit(l: Limit, available: Quantity) returns (r: Option<Quantity>)
    ensures r == Effective(l, available)
    ensures r.None? <==> QuantityPart(l) + PercentPart(l, available) == []
    ensures r.Some? ==> forall part :: part in QuantityPart(l) + PercentPart(l, available) ==>
            r.value.amount <= part.amount
    ensures l.quantity.Some? && l.quantity.value.amount != 0 && r.Some? &&
            l.quantity.value.amount == r.value.amount ==>
              r.value == l.quantity.value
  {
    var parts: seq<Quantity> := [];
    if l.quantity.Some? && l.quantity.value.amount != 0 {
      parts := parts + [l.quantity.value];
    }
    if l.percent.Some? && l.percent.value > 0 {
      parts := parts + [PercentLimit(available, l.percent.value)];
    }
    assert parts == QuantityPart(l) + PercentPart(l, available);
    if |parts| == 0 {
      return None;
    }
    var least := parts[0];
    for i := 1 to |parts|
      invariant least in parts[..i]
      invariant forall part :: part in parts[..i] ==> least.amount <= part.amount
      invariant least != parts[0] ==> least.amount < parts[0].amount
    {
      if parts[i].amount < least.amount {
        least := parts[i];
      }
      assert parts[..i + 1] == parts[..i] + [parts[i]];
    }
    assert parts[..|parts|] == parts;
    r := Some(least);
  }

  /** Limits on resources that the node does not have are skipped. */
  method ApplyResourceLimits(available: Resources, limits: seq<Limit>) returns (r: Resources)
    ensures r.Keys == available.Keys
    ensures forall k :: k in available ==> r[k] == Folded(available[k], k, limits)
  {
    r := available;
    for i := 0 to |limits|
      invariant r.Keys == available.Keys
      invariant forall k :: k in available ==> r[k] == Folded(available[k], k, limits[..i])
    {
      var l := limits[i];
      ghost var was := r;
      if l.resource in r {
        var e := CalculateEffectiveLimit(l, r[l.resource]);
        if e.Some? && e.value.amount < r[l.resource].amount {
          r := r[l.resource := e.value];
        }
      }
      forall k | k in available ensures r[k] == Folded(available[k], k, limits[..i + 1]) {
        FoldedSnoc(available[k], k, limits[..i], l);
        assert limits[..i + 1] == limits[..i] + [l];
        assert was[k] == Folded(available[k], k, limits[..i]);
      }
    }
    assert limits[..|limits|] == limits;
  }

  lemma FoldedSnoc(q: Quantity, resource: string, limits: seq<Limit>, l: Limit)
    ensures Folded(q, resource, limits + [l]) ==
            if l.resource == resource then Limited(Folded(q, resource, limits), l) else Folded(q, resource, limits)
  {
    assert (limits + [l])[..|limits|] == limits;
  }

  lemma {:induction false} FoldedConcat(q: Quantity, resource: string, a: seq<Limit>, b: seq<Limit>)
    ensures Folded(q, resource, a + b) == Folded(Folded(q, resource, a), resource, b)
  {
    if b == [] {
      assert a + b == a;
    } else {
      var n := |b| - 1;
      FoldedConcat(q, resource, a, b[..n]);
      FoldedSnoc(q, resource, a + b[..n], b[n]);
      assert a + b == a + b[..n] + [b[n]];
    }
  }

  // ---------- Percentages ----------

  lemma ProductBounds(value: int, percent: int)
    requires 0 <= value && 0 < percent <= 100
    ensures 0 <= value * percent <= value * 100
  {
  }

  lemma WrapShift(x: int, m: int)
    ensures Int64.Wrap(x - m * Int64.TWO_64) == Int64.Wrap(x)
  {
  }

  /** Wrapping a factor first makes no difference to the wrapped product. */
  lemma WrapProduct(value: int, percent: int)
    ensures Int64.Wrap(Int64.Wrap(value) * percent) == Int64.Wrap(value * percent)
  {
    var k := (value + Int64.TWO_63) / Int64.TWO_64;
    assert Int64.Wrap(value) == value - k * Int64.TWO_64;
    MoveFactor(value, k, percent);
    WrapShift(value * percent, k * percent);
  }

  lemma MoveFactor(value: int, k: int, percent: int)
    ensures (value - k * Int64.TWO_64) * percent == value * percent - (k * percent) * Int64.TWO_64
  {
  }

  /** Wherever the product wraps, the quotient is another one. */
  lemma WrappedQuotientDiffers(product: int)
    requires !Int64.Fits(product)
    ensures Int64.Quotient(Int64.Wrap(product), 100) != Int64.Quotient(product, 100)
  {
    var k := (product + Int64.TWO_63) / Int64.TWO_64;
    assert Int64.Wrap(product) == product - k * Int64.TWO_64;
  }

  /** The share is the exact one, truncated, if and only if the product of the percentage fits an int64. */
  lemma ShareExactIff(value: int, percent: int)
    ensures Share(value, percent) == Int64.Quotient(value * percent, 100) <==> Int64.Fits(value * percent)
  {
    WrapProduct(value, percent);
    if !Int64.Fits(value * percent) {
      WrappedQuotientDiffers(value * percent);
    }
  }

  /** The percentage is the exact share, truncated to the unit, as long as the int64 product does not overflow. */
  lemma PercentLimitExactIff(q: Quantity, percent: int)
    requires 0 < percent <= 100
    ensures PercentLimit(q, percent).amount == Int64.Quotient(Scaled(q) * percent, 100) * Unit(q.format) <==>
            Int64.Fits(Scaled(q) * percent)
  {
    ShareExactIff(Scaled(q), percent);
    SameMultiple(Share(Scaled(q), percent), Int64.Quotient(Scaled(q) * percent, 100), Unit(q.format));
  }

  /** Reading a value beyond int64 as zero, as the library sometimes does, is not exact either. */
  lemma ZeroReadingIsInexact(value: int, percent: int)
    requires !Int64.Fits(value) && 0 < percent <= 100
    ensures Int64.Quotient(value * percent, 100) != 0 && !Int64.Fits(value * percent)
  {
    if value > 0 {
      assert value * percent >= value;
    } else {
      assert value * percent <= value;
    }
  }

  lemma SameMultiple(x: int, y: int, unit: int)
    requires unit > 0
    ensures x * unit == y * unit <==> x == y
  {
  }

  /** A value of at most MaxInt64 / 100 never overflows, whatever the percentage. */
  lemma SmallValuesFit(q: Quantity, percent: int)
    requires 0 < percent <= 100 && 0 <= Scaled(q) <= Int64.MAX / 100
    ensures Scaled(q) * percent <= Int64.MAX
    ensures PercentLimit(q, percent).amount == (Scaled(q) * percent / 100) * Unit(q.format) >= 0
  {
    ProductBounds(Scaled(q), percent);
    ShareExactIff(Scaled(q), percent);
    NonNegativeMultiple(Share(Scaled(q), percent), Unit(q.format));
  }

  lemma NonNegativeMultiple(x: int, unit: int)
    requires x >= 0 && unit > 0
    ensures x * unit >= 0
  {
  }

  lemma RoundedUp(amount: nat, f: Format)
    ensures var s := RoundUp(amount, f); amount <= s * Unit(f) < amount + Unit(f)
    ensures Unit(f) == if f == DecimalSI then 1_000_000 else 1_000_000_000
  {
  }

  /** A limit of p percent is p percent of the amount, up to one unit of the format. */
  lemma PercentOfAmount(q: Quantity, percent: int)
    requires 0 < percent <= 100 && q.amount >= 0 && Scaled(q) * percent <= Int64.MAX
    ensures var unit := if q.format == DecimalSI then 1_000_000 else 1_000_000_000;
            var limit := PercentLimit(q, percent).amount;
            q.amount * percent - 100 * unit < 100 * limit < (q.amount + unit) * percent
    ensures PercentLimit(q, percent).format == q.format
  {
    var s, unit := Scaled(q), Unit(q.format);
    RoundedUp(q.amount, q.format);
    assert s * percent >= 0;
    ShareExactIff(s, percent);
    var share := s * percent / 100;
    assert PercentLimit(q, percent).amount == share * unit;
    ScaledBounds(q.amount, s, unit, percent, share);
  }

  /** Amounts are rounded away from zero on both sides of it. */
  lemma ScaledIsOdd(q: Quantity)
    ensures Scaled(q.(amount := -q.amount)) == -Scaled(q)
    ensures q.amount > 0 ==> Scaled(q) > 0
  {
  }

  lemma ScaledBounds(amount: int, s: int, unit: int, percent: int, share: int)
    requires amount <= s * unit < amount + unit && unit > 0 && percent > 0
    requires 100 * share <= s * percent < 100 * share + 100
    ensures amount * percent - 100 * unit < 100 * (share * unit) < (amount + unit) * percent
  {
    Commute(s, unit, percent);
    TimesAtMost(amount, s * unit, percent);
    TimesLess(s * unit, amount + unit, percent);
    TimesAtMost(100 * share, s * percent, unit);
    TimesLess(s * percent, 100 * share + 100, unit);
    Hundredfold(share, unit);
  }

  lemma Commute(a: int, b: int, c: int)
    ensures (a * b) * c == (a * c) * b
  {
  }

  lemma TimesAtMost(a: int, b: int, c: int)
    requires a <= b && c > 0
    ensures a * c <= b * c
  {
  }

  lemma TimesLess(a: int, b: int, c: int)
    requires a < b && c > 0
    ensures a * c < b * c
  {
  }

  lemma Hundredfold(share: int, unit: int)
    ensures (100 * share) * unit == 100 * (share * unit)
    ensures (100 * share + 100) * unit == 100 * (share * unit) + 100 * unit
  {
  }

  /** A percentage limit alone leaves the smaller of the amount and that share. */
  lemma PercentLimited(q: Quantity, l: Limit)
    requires l.quantity.None? && l.percent.Some? && 0 < l.percent.value <= 100
    requires q.amount >= 0 && Scaled(q) * l.percent.value <= Int64.MAX
    ensures var unit := if q.format == DecimalSI then 1_000_000 else 1_000_000_000;
            var left := Limited(q, l).amount;
            && left <= q.amount && 100 * left < (q.amount + unit) * l.percent.value
            && (left == q.amount || 100 * left > q.amount * l.percent.value - 100 * unit)
  {
    PercentOfAmount(q, l.percent.value);
    LimitedAmount(q, l);
    assert QuantityPart(l) + PercentPart(l, q) == [PercentLimit(q, l.percent.value)];
    assert PercentLimit(q, l.percent.value) in QuantityPart(l) + PercentPart(l, q);
  }

  /** Above that bound the product can wrap around: all of 100 TB, counted in milli-bytes, is a negative limit. */
  lemma OverflowLeasesNegative()
    ensures var q := Quantity(100_000_000_000_000 * NANO, DecimalSI);
            Folded(q, "ephemeral-storage", [Limit("ephemeral-storage", None, Some(100))]).amount < 0 < q.amount
  {
    var q := Quantity(100_000_000_000_000 * NANO, DecimalSI);
    var l := Limit("ephemeral-storage", None, Some(100));
    FoldedSnoc(q, "ephemeral-storage", [], l);
    assert [] + [l] == [l];
    assert Effective(l, q) == Some(PercentLimit(q, 100));
  }

  /** A percentage above 100 does not mean "no limit": it leaves nothing. */
  lemma AboveHundredLeavesNothing(q: Quantity, l: Limit)
    requires q.amount >= 0 && l.percent.Some? && l.percent.value > 100
    requires l.quantity.Some? ==> l.quantity.value.amount >= 0
    ensures Limited(q, l).amount == 0
  {
    assert PercentPart(l, q) == [ZERO];
  }

  // ---------- Folding ----------

  lemma {:induction false} NeverIncreases(q: Quantity, resource: string, limits: seq<Limit>)
    ensures Folded(q, resource, limits).amount <= q.amount
  {
    if limits != [] {
      NeverIncreases(q, resource, limits[..|limits| - 1]);
    }
  }

  lemma AppendNeverRaises(q: Quantity, resource: string, limits: seq<Limit>, more: seq<Limit>)
    ensures Folded(q, resource, limits + more).amount <= Folded(q, resource, limits).amount
  {
    FoldedConcat(q, resource, limits, more);
    NeverIncreases(Folded(q, resource, limits), resource, more);
  }

  ghost predicate NonNegativeLimits(limits: seq<Limit>) {
    forall i :: 0 <= i < |limits| ==> limits[i].quantity.Some? ==> limits[i].quantity.value.amount >= 0
  }

  ghost predicate Uniform(limits: seq<Limit>, f: Format) {
    forall i :: 0 <= i < |limits| ==> limits[i].quantity.Some? ==> limits[i].quantity.value.format == f
  }

  predicate Small(q: Quantity) {
    0 <= Scaled(q) <= Int64.MAX / 100
  }

  lemma ScaledMonotone(a: Quantity, b: Quantity, f: Format)
    requires 0 <= a.amount <= b.amount && HasFormat(a, f) && HasFormat(b, f)
    ensures 0 <= Scaled(a) <= Scaled(b)
  {
  }

  lemma PercentMonotone(a: Quantity, b: Quantity, f: Format, percent: int)
    requires 0 <= a.amount <= b.amount && HasFormat(a, f) && HasFormat(b, f) && Small(b) && percent > 0
    ensures 0 <= PercentLimit(a, percent).amount <= PercentLimit(b, percent).amount
  {
    if percent <= 100 {
      ScaledMonotone(a, b, f);
      SmallValuesFit(a, percent);
      SmallValuesFit(b, percent);
      if a.amount != 0 {
        SharesMonotone(Scaled(a), Scaled(b), percent, Unit(f));
      }
    }
  }

  lemma SharesMonotone(x: int, y: int, percent: int, unit: int)
    requires 0 <= x <= y && percent > 0 && unit > 0
    ensures (x * percent / 100) * unit <= (y * percent / 100) * unit
  {
    assert x * percent <= y * percent;
    assert x * percent / 100 <= y * percent / 100;
  }

  /** One limit in terms of amounts only. */
  lemma LimitedAmount(q: Quantity, l: Limit)
    ensures var r := Limited(q, l).amount;
            && r <= q.amount
            && (forall part :: part in QuantityPart(l) + PercentPart(l, q) ==> r <= part.amount)
            && (r == q.amount || exists part :: part in QuantityPart(l) + PercentPart(l, q) && r == part.amount)
            && (r == q.amount ==> Limited(q, l) == q)
  {
    var parts := QuantityPart(l) + PercentPart(l, q);
    if parts != [] {
      assert parts[0] in parts && parts[|parts| - 1] in parts;
    }
  }

  lemma LimitedMonotone(a: Quantity, b: Quantity, f: Format, l: Limit)
    requires 0 <= a.amount <= b.amount && HasFormat(a, f) && HasFormat(b, f) && Small(b)
    requires NonNegativeLimits([l]) && Uniform([l], f)
    ensures 0 <= Limited(a, l).amount <= Limited(b, l).amount
    ensures HasFormat(Limited(a, l), f) && HasFormat(Limited(b, l), f) && Small(Limited(b, l))
  {
    assert l == [l][0];
    LimitedAmount(b, l);
    if l.percent.Some? && l.percent.value > 0 {
      PercentMonotone(a, b, f, l.percent.value);
    }
    ScaledMonotone(Limited(b, l), b, f);
  }

  /** With one format and no overflow, more available never leaves less. */
  lemma {:induction false} FoldMonotone(a: Quantity, b: Quantity, f: Format, resource: string, limits: seq<Limit>)
    requires 0 <= a.amount <= b.amount && HasFormat(a, f) && HasFormat(b, f) && Small(b)
    requires NonNegativeLimits(limits) && Uniform(limits, f)
    ensures var x, y := Folded(a, resource, limits), Folded(b, resource, limits);
            0 <= x.amount <= y.amount && HasFormat(x, f) && HasFormat(y, f) && Small(y)
  {
    if limits != [] {
      var n := |limits| - 1;
      FoldMonotone(a, b, f, resource, limits[..n]);
      LimitedMonotone(Folded(a, resource, limits[..n]), Folded(b, resource, limits[..n]), f, limits[n]);
    }
  }

  /** Hence a further limit never raises the result, wherever in the list it is put. */
  lemma InsertNeverRaises(q: Quantity, f: Format, resource: string, before: seq<Limit>, l: Limit, after: seq<Limit>)
    requires 0 <= q.amount && HasFormat(q, f) && Small(q)
    requires NonNegativeLimits(before + [l] + after) && Uniform(before + [l] + after, f)
    ensures Folded(q, resource, before + [l] + after).amount <= Folded(q, resource, before + after).amount
  {
    var all := before + [l] + after;
    forall i | 0 <= i < |before| ensures before[i] == all[i] {}
    forall i | 0 <= i < |after| ensures after[i] == all[|before| + 1 + i] {}
    assert l == all[|before|];
    FoldMonotone(q, q, f, resource, before);
    var mid := Folded(q, resource, before);
    FoldedSnoc(q, resource, before, l);
    LimitedMonotone(mid, mid, f, l);
    FoldedConcat(q, resource, before + [l], after);
    FoldedConcat(q, resource, before, after);
    FoldMonotone(Folded(q, resource, before + [l]), mid, f, resource, after);
  }

  /** With two formats the order of the amounts can flip, because each format rounds in its own unit. */
  lemma MixedFormatsAreNotMonotone()
    ensures var less, more := Quantity(1_400_000_000, BinarySI), Quantity(2_000_000_000, BinarySI);
            var limits := [Limit("memory", Some(Quantity(1_500_000_000, DecimalSI)), None)] +
                [Limit("memory", None, Some(50))];
            Folded(more, "memory", limits).amount < Folded(less, "memory", limits).amount
  {
    var less, more := Quantity(1_400_000_000, BinarySI), Quantity(2_000_000_000, BinarySI);
    var l1, l2 := Limit("memory", Some(Quantity(1_500_000_000, DecimalSI)), None), Limit("memory", None, Some(50));
    assert [] + [l1] == [l1];
    FoldedSnoc(less, "memory", [], l1);
    FoldedSnoc(more, "memory", [], l1);
    FoldedSnoc(less, "memory", [l1], l2);
    FoldedSnoc(more, "memory", [l1], l2);
    assert Limited(less, l1) == less && Limited(more, l1) == l1.quantity.value;
    assert Effective(l2, less) == Some(Quantity(1_000_000_000, BinarySI));
    assert Effective(l2, l1.quantity.value) == Some(Quantity(750_000_000, DecimalSI));
  }

  // ---------- Lists with quantity limits only ----------

  ghost predicate QuantitiesOnly(limits: seq<Limit>) {
    forall l :: l in limits ==> l.percent.None? || l.percent.value <= 0
  }

  predicate Binding(l: Limit, resource: string) {
    l.resource == resource && l.quantity.Some? && l.quantity.value.amount != 0
  }

  /** The least of the available amount and all non-zero limits on the resource. */
  ghost predicate IsMinimum(m: int, q: Quantity, resource: string, limits: seq<Limit>) {
    && m <= q.amount
    && (forall l :: l in limits && Binding(l, resource) ==> m <= l.quantity.value.amount)
    && (m == q.amount || exists l :: l in limits && Binding(l, resource) && m == l.quantity.value.amount)
  }

  lemma {:induction false} QuantitiesFoldToMinimum(q: Quantity, resource: string, limits: seq<Limit>)
    requires QuantitiesOnly(limits)
    ensures IsMinimum(Folded(q, resource, limits).amount, q, resource, limits)
  {
    if limits != [] {
      var n := |limits| - 1;
      var l := limits[n];
      QuantitiesFoldToMinimum(q, resource, limits[..n]);
      assert limits == limits[..n] + [l];
      var before := Folded(q, resource, limits[..n]);
      assert l in limits;
      if l.resource == resource {
        LimitedAmount(before, l);
        assert QuantityPart(l) + PercentPart(l, before) == QuantityPart(l);
      }
    }
  }

  /** Neither the order nor repetition of such limits matters. */
  lemma QuantityOrderIrrelevant(q: Quantity, resource: string, a: seq<Limit>, b: seq<Limit>)
    requires QuantitiesOnly(a) && (forall l :: l in a <==> l in b)
    ensures Folded(q, resource, a).amount == Folded(q, resource, b).amount
  {
    QuantitiesFoldToMinimum(q, resource, a);
    QuantitiesFoldToMinimum(q, resource, b);
  }
}
