/**
 The service fee (domain/pricing/pricing.go) and an order's three totals: how `New` derives them and
 how `ValidatePricing` checks them (domain/order/order.go). All of it is 64-bit arithmetic, and is
 stated with the wrapping it has.
 */
module Pricing {
  import opened Results

  const BASIS := 10_000
  const MAX_QUANTITY_PER_ORDER := 10

  /** Unit prices up to nine trillion reais leave room for every product and sum. */
  const SAFE_PRICE := 900_000_000_000_000

  // --------------------------------------------------------------------- fee

  /** Go's integer division, towards zero. */
  function Quotient(a: int, b: int): int
    requires b > 0
  {
    if a >= 0 then a / b else -((-a) / b)
  }

  /** The fee on one ticket, half up. */
  function On(basisPoints: int, face: int): int {
    if basisPoints <= 0 || face <= 0 then 0
    else Quotient(Wrap(Wrap(face * basisPoints) + BASIS / 2), BASIS)
  }

  predicate ValidFee(basisPoints: int) { 0 <= basisPoints <= BASIS }

  lemma {:induction false} SmallerProduct(a: int, b: int, c: int)
    requires 0 <= a <= b && 0 <= c
    ensures 0 <= a * c <= b * c
  {
    assert (b - a) * c >= 0;
    assert b * c - a * c == (b - a) * c;
  }

  lemma {:induction false} FeeDoesNotWrap(basisPoints: int, face: int)
    requires ValidFee(basisPoints) && 0 <= face <= SAFE_PRICE
    ensures 0 <= face * basisPoints <= SAFE_PRICE * BASIS
    ensures On(basisPoints, face) == (face * basisPoints + BASIS / 2) / BASIS
  {
    SmallerProduct(face, SAFE_PRICE, basisPoints);
    SmallerProduct(basisPoints, BASIS, SAFE_PRICE);
    assert basisPoints * SAFE_PRICE == SAFE_PRICE * basisPoints;
  }

  /** Within half a centavo of the exact rate, ties going up; never more than the ticket; never less for a dearer one. */
  lemma {:induction false} FeeIsTheNearestCentavo(basisPoints: int, face: int, dearer: int)
    requires ValidFee(basisPoints) && 0 <= face <= dearer <= SAFE_PRICE
    ensures -BASIS / 2 <= face * basisPoints - BASIS * On(basisPoints, face) < BASIS / 2
    ensures 0 <= On(basisPoints, face) <= face
    ensures On(basisPoints, face) <= On(basisPoints, dearer)
  {
    FeeDoesNotWrap(basisPoints, face);
    FeeDoesNotWrap(basisPoints, dearer);
    SmallerProduct(face, dearer, basisPoints);
    var x, y := face * basisPoints + BASIS / 2, dearer * basisPoints + BASIS / 2;
    assert x == BASIS * (x / BASIS) + x % BASIS;
    assert y == BASIS * (y / BASIS) + y % BASIS;
    SmallerProduct(basisPoints, BASIS, face);
    assert basisPoints * face == face * basisPoints;
  }

  // ------------------------------------------------------------------- totals

  /** What a line asks for. */
  datatype DraftLine = DraftLine(unit: int, quantity: int)

  /** A priced line, and an order of them. */
  datatype Line = Line(unit: int, quantity: int, unitFee: int, total: int, fee: int)

  datatype Order = Order(lines: seq<Line>, subtotal: int, fee: int, total: int)

  datatype PricingError = ErrInvalidQuantity | ErrInvalidAmount | ErrPricingInconsistent

  function Quoted(basisPoints: int, d: DraftLine): Line {
    var n := if d.quantity < 0 then 0 else d.quantity;
    Line(d.unit, d.quantity, On(basisPoints, d.unit), Wrap(d.unit * n), Wrap(On(basisPoints, d.unit) * n))
  }

  function AllQuoted(basisPoints: int, draft: seq<DraftLine>): (r: seq<Line>)
    ensures |r| == |draft| && forall k | 0 <= k < |r| :: r[k] == Quoted(basisPoints, draft[k])
  {
    seq(|draft|, k requires 0 <= k < |draft| => Quoted(basisPoints, draft[k]))
  }

  predicate Priceable(d: DraftLine) { d.quantity >= 1 && d.unit >= 0 }

  ghost predicate AllPriceable(draft: seq<DraftLine>) {
    forall k | 0 <= k < |draft| :: Priceable(draft[k])
  }

  /** A sum as a person would make it, and as a 64-bit loop makes it. */
  function Sum(xs: seq<int>): int {
    if xs == [] then 0 else Sum(xs[..|xs| - 1]) + xs[|xs| - 1]
  }

  function Looped(xs: seq<int>): int {
    if xs == [] then 0 else Wrap(Looped(xs[..|xs| - 1]) + xs[|xs| - 1])
  }

  lemma {:induction false} LoopedNext(xs: seq<int>, k: nat)
    requires k < |xs|
    ensures Looped(xs[..k + 1]) == Wrap(Looped(xs[..k]) + xs[k])
  {
    assert xs[..k + 1][..k] == xs[..k];
  }

  lemma {:induction false} WrapBoth(x: int, y: int)
    ensures Wrap(Wrap(x) + Wrap(y)) == Wrap(x + y)
  {
    WrapAdd(x, Wrap(y));
    WrapAdd(y, x);
  }

  ghost predicate Wraps(xs: seq<int>, exact: seq<int>) {
    |xs| == |exact| && forall k | 0 <= k < |xs| :: xs[k] == Wrap(exact[k])
  }

  /** Wrapping every number and every sum is wrapping the one plain sum. */
  lemma {:induction false} LoopedIsWrapped(xs: seq<int>, exact: seq<int>)
    requires Wraps(xs, exact)
    ensures Looped(xs) == Wrap(Sum(exact))
  {
    if xs != [] {
      var n := |xs| - 1;
      LoopedIsWrapped(xs[..n], exact[..n]);
      WrapBoth(Sum(exact[..n]), exact[n]);
    }
  }

  lemma {:induction false} LoopedIsPlain(xs: seq<int>)
    ensures Looped(xs) == Wrap(Sum(xs))
  {
    if xs != [] {
      var n := |xs| - 1;
      LoopedIsPlain(xs[..n]);
      WrapAdd(Sum(xs[..n]), xs[n]);
    }
  }

  /** What each line is worth exactly, what its fees are, and how many tickets it is for. */
  function Faces(draft: seq<DraftLine>): (r: seq<int>)
    ensures |r| == |draft| && forall k | 0 <= k < |r| :: r[k] == draft[k].unit * draft[k].quantity
  {
    seq(|draft|, k requires 0 <= k < |draft| => draft[k].unit * draft[k].quantity)
  }

  function Fees(basisPoints: int, draft: seq<DraftLine>): (r: seq<int>)
    ensures |r| == |draft| && forall k | 0 <= k < |r| :: r[k] == On(basisPoints, draft[k].unit) * draft[k].quantity
  {
    seq(|draft|, k requires 0 <= k < |draft| => On(basisPoints, draft[k].unit) * draft[k].quantity)
  }

  function Quantities(draft: seq<DraftLine>): (r: seq<int>)
    ensures |r| == |draft| && forall k | 0 <= k < |r| :: r[k] == draft[k].quantity
  {
    seq(|draft|, k requires 0 <= k < |draft| => draft[k].quantity)
  }

  /** What the priced lines say. */
  function Totals(lines: seq<Line>): (r: seq<int>)
    ensures |r| == |lines| && forall k | 0 <= k < |r| :: r[k] == lines[k].total
  {
    seq(|lines|, k requires 0 <= k < |lines| => lines[k].total)
  }

  function Charges(lines: seq<Line>): (r: seq<int>)
    ensures |r| == |lines| && forall k | 0 <= k < |r| :: r[k] == lines[k].fee
  {
    seq(|lines|, k requires 0 <= k < |lines| => lines[k].fee)
  }

  function Priced(basisPoints: int, draft: seq<DraftLine>): Order {
    var lines := AllQuoted(basisPoints, draft);
    var subtotal, fee := Looped(Totals(lines)), Looped(Charges(lines));
    Order(lines, subtotal, fee, Wrap(subtotal + fee))
  }

  /** Each line of an order, in the order asked for, at its own price and fee, a ticket's fee times the tickets. */
  lemma {:induction false} PricedLinesAre(basisPoints: int, draft: seq<DraftLine>, k: nat)
    requires k < |draft| && draft[k].quantity >= 1
    ensures var lines := Priced(basisPoints, draft).lines;
            && |lines| == |draft| && lines[k].unit == draft[k].unit && lines[k].quantity == draft[k].quantity
            && lines[k].unitFee == On(basisPoints, draft[k].unit)
            && lines[k].total == Wrap(draft[k].unit * draft[k].quantity)
            && lines[k].fee == Wrap(On(basisPoints, draft[k].unit) * draft[k].quantity)
  {
  }

  /** A running sum in 64 bits. */
  method Add(xs: seq<int>) returns (sum: int)
    ensures sum == Looped(xs)
  {
    sum := 0;
    for k := 0 to |xs|
      invariant sum == Looped(xs[..k])
    {
      LoopedNext(xs, k);
      sum := Wrap(sum + xs[k]);
    }
    TakeAll(xs);
  }

  /** Every line checked and priced, in order. */
  method PriceLines(basisPoints: int, draft: seq<DraftLine>) returns (r: Result<seq<Line>, PricingError>)
    ensures r.Ok? <==> AllPriceable(draft)
    ensures r.Ok? ==> r.value == AllQuoted(basisPoints, draft)
  {
    var lines := [];
    for k := 0 to |draft|
      invariant |lines| == k
      invariant forall j | 0 <= j < k :: Priceable(draft[j]) && lines[j] == Quoted(basisPoints, draft[j])
    {
      if draft[k].quantity < 1 {
        assert !Priceable(draft[k]);
        return Err(ErrInvalidQuantity);
      }
      if draft[k].unit < 0 {
        assert !Priceable(draft[k]);
        return Err(ErrInvalidAmount);
      }
      lines := lines + [Quoted(basisPoints, draft[k])];
    }
    return Ok(lines);
  }

  /** The totals `New` derives; its one loop over the lines is a loop for each of its three sums here. */
  method New(basisPoints: int, draft: seq<DraftLine>) returns (r: Result<Order, PricingError>)
    ensures r.Ok? <==> draft != [] && AllPriceable(draft) && Looped(Quantities(draft)) <= MAX_QUANTITY_PER_ORDER
    ensures r.Ok? ==> r.value == Priced(basisPoints, draft)
    ensures r.Ok? <==>
              && draft != [] && (forall k | 0 <= k < |draft| :: draft[k].quantity >= 1 && draft[k].unit >= 0)
              && Wrap(Sum(Quantities(draft))) <= 10
  {
    LoopedIsPlain(Quantities(draft));
    if draft == [] {
      return Err(ErrInvalidQuantity);
    }
    var priced := PriceLines(basisPoints, draft);
    if priced.Err? {
      return Err(priced.error);
    }
    var subtotal := Add(Totals(priced.value));
    var fees := Add(Charges(priced.value));
    var quantity := Add(Quantities(draft));
    if quantity > MAX_QUANTITY_PER_ORDER {
      return Err(ErrInvalidQuantity);
    }
    return Ok(Order(priced.value, subtotal, fees, Wrap(subtotal + fees)));
  }

  /** Nothing negative, the total is the two halves, and the lines add up to them. */
  predicate Consistent(o: Order) {
    && o.subtotal >= 0 && o.fee >= 0 && o.total >= 0
    && o.total == Wrap(o.subtotal + o.fee)
    && (o.lines != [] ==> Looped(Totals(o.lines)) == o.subtotal && Looped(Charges(o.lines)) == o.fee)
  }

  method ValidatePricing(o: Order) returns (error: Option<PricingError>)
    ensures error.None? <==> Consistent(o)
    ensures error.None? <==>
              && o.subtotal >= 0 && o.fee >= 0 && o.total >= 0 && o.total == Wrap(o.subtotal + o.fee)
              && (o.lines == [] || (Looped(Totals(o.lines)) == o.subtotal && Looped(Charges(o.lines)) == o.fee))
  {
    if o.subtotal < 0 || o.fee < 0 || o.total < 0 {
      return Some(ErrPricingInconsistent);
    }
    if o.total != Wrap(o.subtotal + o.fee) {
      return Some(ErrPricingInconsistent);
    }
    if |o.lines| == 0 {
      return None;
    }
    var face := Add(Totals(o.lines));
    var fee := Add(Charges(o.lines));
    if face != o.subtotal || fee != o.fee {
      return Some(ErrPricingInconsistent);
    }
    return None;
  }

  // --------------------------------------------------------------- theorems

  /** The priced lines are the exact ones, wrapped. */
  lemma {:induction false} QuotedWraps(basisPoints: int, draft: seq<DraftLine>)
    requires AllPriceable(draft)
    ensures Wraps(Totals(AllQuoted(basisPoints, draft)), Faces(draft))
    ensures Wraps(Charges(AllQuoted(basisPoints, draft)), Fees(basisPoints, draft))
  {
    forall k | 0 <= k < |draft|
      ensures AllQuoted(basisPoints, draft)[k].total == Wrap(Faces(draft)[k])
      ensures AllQuoted(basisPoints, draft)[k].fee == Wrap(Fees(basisPoints, draft)[k])
    {
      assert Priceable(draft[k]);
    }
  }

  lemma {:induction false} HalvesWrapOnce(basisPoints: int, draft: seq<DraftLine>)
    requires AllPriceable(draft)
    ensures Looped(Totals(AllQuoted(basisPoints, draft))) == Wrap(Sum(Faces(draft)))
    ensures Looped(Charges(AllQuoted(basisPoints, draft))) == Wrap(Sum(Fees(basisPoints, draft)))
  {
    QuotedWraps(basisPoints, draft);
    LoopedIsWrapped(Totals(AllQuoted(basisPoints, draft)), Faces(draft));
    LoopedIsWrapped(Charges(AllQuoted(basisPoints, draft)), Fees(basisPoints, draft));
  }

  /** The totals of an accepted order are the plain sums, wrapped once. */
  lemma {:induction false} TotalsWrapOnce(basisPoints: int, draft: seq<DraftLine>)
    requires AllPriceable(draft)
    ensures var o := Priced(basisPoints, draft);
            && o.subtotal == Wrap(Sum(Faces(draft))) && o.fee == Wrap(Sum(Fees(basisPoints, draft)))
            && o.total == Wrap(Sum(Faces(draft)) + Sum(Fees(basisPoints, draft)))
  {
    HalvesWrapOnce(basisPoints, draft);
    WrappedHalves(Sum(Faces(draft)), Sum(Fees(basisPoints, draft)), Priced(basisPoints, draft));
  }

  lemma {:induction false} WrappedHalves(face: int, fee: int, o: Order)
    requires o.subtotal == Wrap(face) && o.fee == Wrap(fee) && o.total == Wrap(o.subtotal + o.fee)
    ensures o.total == Wrap(face + fee)
  {
    WrapBoth(face, fee);
  }

  /** An order `New` accepts is found consistent exactly when none of the plain sums wraps to a negative one. */
  lemma {:induction false} AcceptedIsConsistentExactlyUnwrapped(basisPoints: int, draft: seq<DraftLine>)
    requires AllPriceable(draft)
    ensures Consistent(Priced(basisPoints, draft))
       <==> && Wrap(Sum(Faces(draft))) >= 0 && Wrap(Sum(Fees(basisPoints, draft))) >= 0
            && Wrap(Sum(Faces(draft)) + Sum(Fees(basisPoints, draft))) >= 0
  {
    TotalsWrapOnce(basisPoints, draft);
  }

  ghost predicate Affordable(draft: seq<DraftLine>) {
    AllPriceable(draft) && forall k | 0 <= k < |draft| :: draft[k].unit <= SAFE_PRICE
  }

  lemma {:induction false} SumNext(xs: seq<int>, k: nat)
    requires k < |xs|
    ensures Sum(xs[..k + 1]) == Sum(xs[..k]) + xs[k]
  {
    assert xs[..k + 1][..k] == xs[..k];
  }

  lemma {:induction false} LineIsBounded(basisPoints: int, d: DraftLine)
    requires ValidFee(basisPoints) && Priceable(d) && d.unit <= SAFE_PRICE
    ensures 0 <= On(basisPoints, d.unit) * d.quantity <= d.unit * d.quantity <= SAFE_PRICE * d.quantity
  {
    FeeIsTheNearestCentavo(basisPoints, d.unit, d.unit);
    SmallerProduct(On(basisPoints, d.unit), d.unit, d.quantity);
    SmallerProduct(d.unit, SAFE_PRICE, d.quantity);
  }

  lemma {:induction false} TotalsAreBounded(basisPoints: int, draft: seq<DraftLine>, n: nat)
    requires ValidFee(basisPoints) && Affordable(draft) && n <= |draft|
    ensures 0 <= Sum(Fees(basisPoints, draft)[..n]) <= Sum(Faces(draft)[..n]) <= SAFE_PRICE * Sum(Quantities(draft)[..n])
  {
    if n > 0 {
      TotalsAreBounded(basisPoints, draft, n - 1);
      SumNext(Fees(basisPoints, draft), n - 1);
      SumNext(Faces(draft), n - 1);
      SumNext(Quantities(draft), n - 1);
      assert Priceable(draft[n - 1]);
      LineIsBounded(basisPoints, draft[n - 1]);
    }
  }

  /** Up to nine trillion reais a ticket and ten tickets nothing wraps: the totals are the plain sums, and are consistent. */
  lemma {:induction false} NothingWrapsInPractice(basisPoints: int, draft: seq<DraftLine>)
    requires ValidFee(basisPoints) && Affordable(draft) && Sum(Quantities(draft)) <= MAX_QUANTITY_PER_ORDER
    ensures var o := Priced(basisPoints, draft);
            && Consistent(o) && o.subtotal == Sum(Faces(draft)) && o.fee == Sum(Fees(basisPoints, draft))
            && o.total == o.subtotal + o.fee
  {
    TotalsAreBounded(basisPoints, draft, |draft|);
    TakeAll(Fees(basisPoints, draft));
    TakeAll(Faces(draft));
    TakeAll(Quantities(draft));
    TotalsWrapOnce(basisPoints, draft);
    AcceptedIsConsistentExactlyUnwrapped(basisPoints, draft);
  }

  lemma {:induction false} SumOfConcat(a: seq<int>, b: seq<int>)
    ensures Sum(a + b) == Sum(a) + Sum(b)
    decreases |b|
  {
    if b == [] {
      assert a + b == a;
    } else {
      assert (a + b)[..|a + b| - 1] == a + b[..|b| - 1];
      SumOfConcat(a, b[..|b| - 1]);
    }
  }

  lemma {:induction false} SumOfSame(xs: seq<int>, x: int)
    requires forall k | 0 <= k < |xs| :: xs[k] == x
    ensures Sum(xs) == x * |xs|
  {
    if xs != [] {
      SumOfSame(xs[..|xs| - 1], x);
      OneMore(x, |xs| - 1);
    }
  }

  lemma {:induction false} OneMore(x: int, n: int)
    ensures x * (n + 1) == x * n + x
  {
  }

  lemma {:induction false} SumOfOne(x: int)
    ensures Sum([x]) == x
  {
    assert [x][..0] == [];
  }

  /** A seated line as checkout expands it: one ticket a chair. */
  function Chairs(unit: int, n: nat): (r: seq<DraftLine>)
    ensures |r| == n && forall k | 0 <= k < n :: r[k] == DraftLine(unit, 1)
  {
    seq(n, _ => DraftLine(unit, 1))
  }

  /** A number in the middle of a list and that number in equal parts there sum alike. */
  lemma {:induction false} SumOfParts(a: seq<int>, x: int, parts: seq<int>, b: seq<int>)
    requires Sum(parts) == x
    ensures Sum(a + [x] + b) == Sum(a + parts + b)
  {
    SumOfOne(x);
    SumOfConcat(a, [x]);
    SumOfConcat(a + [x], b);
    SumOfConcat(a, parts);
    SumOfConcat(a + parts, b);
  }

  /** One line of `n` tickets and `n` lines of one, anywhere in the order, cost the same to the centavo, wrapped or not. */
  lemma {:induction false} SplittingALine(basisPoints: int, before: seq<DraftLine>, unit: int, n: nat, after: seq<DraftLine>)
    requires AllPriceable(before) && AllPriceable(after) && unit >= 0 && n >= 1
    ensures var whole := Priced(basisPoints, before + [DraftLine(unit, n)] + after);
            var split := Priced(basisPoints, before + Chairs(unit, n) + after);
            whole.subtotal == split.subtotal && whole.fee == split.fee && whole.total == split.total
  {
    var whole, split := before + [DraftLine(unit, n)] + after, before + Chairs(unit, n) + after;
    SplitFaces(before, unit, n, after);
    SplitFees(basisPoints, before, unit, n, after);
    AllPriceableTogether(before, [DraftLine(unit, n)], after);
    AllPriceableTogether(before, Chairs(unit, n), after);
    TotalsWrapOnce(basisPoints, whole);
    TotalsWrapOnce(basisPoints, split);
  }

  lemma {:induction false} AllPriceableTogether(a: seq<DraftLine>, b: seq<DraftLine>, c: seq<DraftLine>)
    requires AllPriceable(a) && AllPriceable(b) && AllPriceable(c)
    ensures AllPriceable(a + b + c)
  {
  }

  lemma {:induction false} SplitFaces(before: seq<DraftLine>, unit: int, n: nat, after: seq<DraftLine>)
    ensures Sum(Faces(before + [DraftLine(unit, n)] + after)) == Sum(Faces(before + Chairs(unit, n) + after))
  {
    var parts := Faces(Chairs(unit, n));
    SumOfSame(parts, unit);
    SumOfParts(Faces(before), unit * n, parts, Faces(after));
    assert Faces(before + [DraftLine(unit, n)] + after) == Faces(before) + [unit * n] + Faces(after);
    assert Faces(before + Chairs(unit, n) + after) == Faces(before) + parts + Faces(after);
  }

  lemma {:induction false} SplitFees(basisPoints: int, before: seq<DraftLine>, unit: int, n: nat, after: seq<DraftLine>)
    ensures Sum(Fees(basisPoints, before + [DraftLine(unit, n)] + after)) == Sum(Fees(basisPoints, before + Chairs(unit, n) + after))
  {
    var fee := On(basisPoints, unit);
    var parts := Fees(basisPoints, Chairs(unit, n));
    SumOfSame(parts, fee);
    SumOfParts(Fees(basisPoints, before), fee * n, parts, Fees(basisPoints, after));
    FeesOfParts(basisPoints, before, [DraftLine(unit, n)], after);
    FeesOfParts(basisPoints, before, Chairs(unit, n), after);
    assert Fees(basisPoints, [DraftLine(unit, n)]) == [fee * n];
  }

  lemma {:induction false} FeesOfParts(basisPoints: int, a: seq<DraftLine>, b: seq<DraftLine>, c: seq<DraftLine>)
    ensures Fees(basisPoints, a + b + c) == Fees(basisPoints, a) + Fees(basisPoints, b) + Fees(basisPoints, c)
  {
  }

  /** Where it does go wrong: two tickets of 2^62 centavos are accepted, and are worth less than nothing. */
  lemma {:induction false} AWrappedOrderIsAcceptedAndRefused()
    ensures var draft := [DraftLine(0x4000_0000_0000_0000, 2)];
            && AllPriceable(draft) && Looped(Quantities(draft)) <= MAX_QUANTITY_PER_ORDER
            && Priced(0, draft).subtotal == MIN_INT64 && !Consistent(Priced(0, draft))
  {
    var draft := [DraftLine(0x4000_0000_0000_0000, 2)];
    assert Faces(draft) == [0x8000_0000_0000_0000] && Quantities(draft) == [2];
    TotalsWrapOnce(0, draft);
    SumOfOne(0x8000_0000_0000_0000);
    assert [2][..0] == [];
  }
}
