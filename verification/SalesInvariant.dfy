/** What every reachable state of the sale protocol keeps, and the proof that every step keeps it. */
module SalesInvariant {
  import opened Results
  import opened Text
  import opened Orders
  import opened Tickets
  import opened Basket
  import BasketTheorems
  import opened Sales

  // ------------------------------------------------------------ the invariant

  ghost function SumOnHold(orders: seq<Row>, t: string): int {
    if orders == [] then 0 else SumOnHold(orders[..|orders| - 1], t) + OnHold(orders[|orders| - 1], t)
  }

  ghost function SumBought(orders: seq<Row>, t: string): int {
    if orders == [] then 0 else SumBought(orders[..|orders| - 1], t) + Bought(orders[|orders| - 1], t)
  }

  /** The counters are exactly what the orders say, and never more than the tier is for. */
  ghost predicate TierTallies(orders: seq<Row>, t: string, tier: Tier) {
    && tier.reserved == SumOnHold(orders, t)
    && tier.sold == SumBought(orders, t)
    && tier.WithinBounds()
  }

  ghost predicate Tallied(o: Office) {
    forall t | t in o.tiers :: TierTallies(o.orders, t, o.tiers[t])
  }

  /** A line is for tickets of its own event: one named chair, or a count of a tier without chairs. */
  ghost predicate LineFits(tiers: map<string, Tier>, chairs: map<string, Chair>, event: string, line: Line) {
    && line.quantity >= 1
    && line.tier in tiers && tiers[line.tier].event == event
    && match line.seat
       case Some(c) => line.quantity == 1 && c in chairs && chairs[c].tier == line.tier && chairs[c].event == event
       case None => !HasChairs(chairs, event, line.tier)
  }

  /** Money in, and only then, dates the row as paid. */
  ghost predicate PaidDateFits(row: Row) {
    && row.status.Valid()
    && (row.status.Paid? ==> row.paidAt.Some?)
    && (row.paidAt.Some? ==> row.status.Paid? || row.status.Refunded?)
  }

  ghost predicate RowFits(tiers: map<string, Tier>, chairs: map<string, Chair>, row: Row) {
    && PaidDateFits(row)
    && forall k | 0 <= k < |row.lines| :: LineFits(tiers, chairs, row.event, row.lines[k])
  }

  ghost predicate DistinctSeats(lines: seq<Line>) {
    lines == []
    || (&& DistinctSeats(lines[..|lines| - 1])
        && (lines[|lines| - 1].seat.Some? ==> !Names(lines[..|lines| - 1], lines[|lines| - 1].seat.value)))
  }

  /** Every tier names an event, and a chair is of its tier's event. */
  ghost predicate ChairsBelong(tiers: map<string, Tier>, chairs: map<string, Chair>) {
    && (forall t | t in tiers :: tiers[t].event != "")
    && (forall c | c in chairs :: chairs[c].tier in tiers && tiers[chairs[c].tier].event == chairs[c].event)
  }

  ghost predicate Fitting(o: Office) {
    && ChairsBelong(o.tiers, o.chairs)
    && forall i | 0 <= i < |o.orders| :: RowFits(o.tiers, o.chairs, o.orders[i]) && DistinctSeats(o.orders[i].lines)
  }

  /** A chair is held by one pending order that names it, or owned by one paid order that names it, or nobody's. */
  ghost predicate ChairFits(orders: seq<Row>, c: string, chair: Chair) {
    match chair.order
    case None => !chair.Occupied()
    case Some(i) =>
      && i < |orders|
      && Names(orders[i].lines, c)
      && (if orders[i].status.Paid? then chair.status.Taken? else chair.status.Held? && orders[i].status.HoldsStock())
  }

  ghost predicate Owns(chairs: map<string, Chair>, i: nat, row: Row, c: string) {
    c in chairs && chairs[c].order == Some(i) && (if row.status.Paid? then chairs[c].status.Taken? else chairs[c].status.Held?)
  }

  /** A pending or paid order has every chair it names. */
  ghost predicate HasItsChairs(chairs: map<string, Chair>, i: nat, row: Row) {
    row.status.HoldsStock() || row.status.Paid? ==>
      forall c | Names(row.lines, c) :: Owns(chairs, i, row, c)
  }

  ghost predicate Seated(o: Office) {
    && (forall c | c in o.chairs :: ChairFits(o.orders, c, o.chairs[c]))
    && (forall i | 0 <= i < |o.orders| :: HasItsChairs(o.chairs, i, o.orders[i]))
  }

  /** An order that was ever paid has exactly the credentials its lines are worth; no other has any. */
  ghost predicate HasItsCredentials(admissions: seq<Admission>, i: nat, row: Row) {
    Given(admissions, i) == if row.paidAt.Some? then Minted(row.lines) else []
  }

  ghost predicate AdmissionFits(orders: seq<Row>, a: Admission) {
    && a.order < |orders|
    && (if a.status.Void? then orders[a.order].status.Refunded? else orders[a.order].status.Paid?)
    && (a.status.Admitted? ==> a.admittedAt.Some?)
    && (a.status.Issued? ==> a.admittedAt.None?)
    && (a.status.Void? <==> a.voidedAt.Some?)
  }

  ghost predicate Admitting(o: Office) {
    && (forall i | 0 <= i < |o.orders| :: HasItsCredentials(o.admissions, i, o.orders[i]))
    && (forall a | 0 <= a < |o.admissions| :: AdmissionFits(o.orders, o.admissions[a]))
  }

  ghost predicate Inv(o: Office) {
    Fitting(o) && Tallied(o) && Seated(o) && Admitting(o)
  }

  /** An office about to open: nothing sold, nothing held, no order and no admission yet. */
  ghost predicate Opening(o: Office) {
    && o.orders == [] && o.admissions == []
    && ChairsBelong(o.tiers, o.chairs)
    && (forall t | t in o.tiers :: o.tiers[t].sold == 0 && o.tiers[t].reserved == 0 && o.tiers[t].quantity >= 0)
    && (forall c | c in o.chairs :: !o.chairs[c].Occupied() && o.chairs[c].order.None?)
  }

  lemma {:induction false} OpeningIsValid(o: Office)
    requires Opening(o)
    ensures Inv(o)
  {
  }

  // -------------------------------------------------------------------- lines

  lemma {:induction false} DemandIsNatural(lines: seq<Line>, t: string)
    requires forall k | 0 <= k < |lines| :: lines[k].quantity >= 1
    ensures Demand(lines, t) >= 0
    ensures Demand(lines, t) > 0 ==> exists k :: 0 <= k < |lines| && lines[k].tier == t
  {
    if lines != [] {
      var n := |lines| - 1;
      DemandIsNatural(lines[..n], t);
      if Demand(lines[..n], t) > 0 {
        var k :| 0 <= k < n && lines[..n][k].tier == t;
        assert lines[k].tier == t;
      }
    }
  }

  /** A line asks for no more than its order does. */
  lemma {:induction false} LineWithinDemand(lines: seq<Line>, k: nat)
    requires forall j | 0 <= j < |lines| :: lines[j].quantity >= 1
    requires k < |lines|
    ensures Demand(lines[..k], lines[k].tier) + lines[k].quantity <= Demand(lines, lines[k].tier)
    decreases |lines|
  {
    var n := |lines| - 1;
    if k < n {
      LineWithinDemand(lines[..n], k);
      assert lines[..n][..k] == lines[..k];
    }
  }

  // --------------------------------------------------------------------- sums

  lemma {:induction false} SumsUpdated(orders: seq<Row>, i: nat, row: Row, t: string)
    requires i < |orders|
    ensures SumOnHold(orders[i := row], t) == SumOnHold(orders, t) + OnHold(row, t) - OnHold(orders[i], t)
    ensures SumBought(orders[i := row], t) == SumBought(orders, t) + Bought(row, t) - Bought(orders[i], t)
  {
    var n := |orders| - 1;
    if i < n {
      SumsUpdated(orders[..n], i, row, t);
      assert orders[i := row][..n] == orders[..n][i := row];
    } else {
      assert orders[i := row][..n] == orders[..n];
    }
  }

  lemma {:induction false} SumsExtended(orders: seq<Row>, row: Row, t: string)
    ensures SumOnHold(orders + [row], t) == SumOnHold(orders, t) + OnHold(row, t)
    ensures SumBought(orders + [row], t) == SumBought(orders, t) + Bought(row, t)
  {
    assert (orders + [row])[..|orders|] == orders;
  }

  lemma {:induction false} SumsAreNatural(o: Office, n: nat, t: string)
    requires Fitting(o) && n <= |o.orders|
    ensures SumOnHold(o.orders[..n], t) >= 0 && SumBought(o.orders[..n], t) >= 0
  {
    if n > 0 {
      SumsAreNatural(o, n - 1, t);
      assert o.orders[..n][..n - 1] == o.orders[..n - 1];
      QuantitiesOf(o, n - 1);
      DemandIsNatural(o.orders[n - 1].lines, t);
    }
  }

  lemma {:induction false} QuantitiesOf(o: Office, i: nat)
    requires Fitting(o) && i < |o.orders|
    ensures forall k | 0 <= k < |o.orders[i].lines| :: o.orders[i].lines[k].quantity >= 1
  {
    assert RowFits(o.tiers, o.chairs, o.orders[i]);
  }

  // --------------------------------------------- what a change of hands keeps

  /** The tiers and the chairs are the same things, whatever happened to them. */
  ghost predicate SameHouse(a: Office, b: Office) {
    && a.tiers.Keys == b.tiers.Keys && a.chairs.Keys == b.chairs.Keys
    && (forall t | t in a.tiers :: b.tiers[t].event == a.tiers[t].event)
    && (forall c | c in a.chairs :: b.chairs[c].event == a.chairs[c].event && b.chairs[c].tier == a.chairs[c].tier)
  }

  lemma {:induction false} HouseKeepsItsChairs(a: Office, b: Office, event: string, t: string)
    requires SameHouse(a, b)
    ensures HasChairs(a.chairs, event, t) <==> HasChairs(b.chairs, event, t)
  {
    if HasChairs(a.chairs, event, t) {
      var c :| c in a.chairs && a.chairs[c].event == event && a.chairs[c].tier == t;
      assert c in b.chairs && b.chairs[c].event == event && b.chairs[c].tier == t;
    }
    if HasChairs(b.chairs, event, t) {
      var c :| c in b.chairs && b.chairs[c].event == event && b.chairs[c].tier == t;
      assert c in a.chairs && a.chairs[c].event == event && a.chairs[c].tier == t;
    }
  }

  lemma {:induction false} RowStillFits(a: Office, b: Office, row: Row)
    requires SameHouse(a, b) && RowFits(a.tiers, a.chairs, row)
    ensures RowFits(b.tiers, b.chairs, row)
  {
    forall k | 0 <= k < |row.lines|
      ensures LineFits(b.tiers, b.chairs, row.event, row.lines[k])
    {
      assert LineFits(a.tiers, a.chairs, row.event, row.lines[k]);
      HouseKeepsItsChairs(a, b, row.event, row.lines[k].tier);
    }
  }

  lemma {:induction false} StillFitting(a: Office, b: Office)
    requires SameHouse(a, b) && Fitting(a)
    requires |b.orders| >= |a.orders|
    requires forall i | 0 <= i < |b.orders| ::
               && DistinctSeats(b.orders[i].lines)
               && (if i < |a.orders| && b.orders[i] == a.orders[i] then true else RowFits(a.tiers, a.chairs, b.orders[i]))
    ensures Fitting(b)
  {
    forall i | 0 <= i < |b.orders|
      ensures RowFits(b.tiers, b.chairs, b.orders[i])
    {
      RowStillFits(a, b, b.orders[i]);
    }
  }

  /** The orders after order `i` becomes `row`, `i` being a new one or one there already. */
  ghost function With(orders: seq<Row>, i: nat, row: Row): seq<Row>
    requires i <= |orders|
  {
    if i == |orders| then orders + [row] else orders[i := row]
  }

  /** Whatever `row` names is free, or is already order `i`'s. */
  ghost predicate FreeFor(chairs: map<string, Chair>, i: nat, row: Row) {
    row.status.HoldsStock() || row.status.Paid? ==>
      forall c | Names(row.lines, c) :: c in chairs && (chairs[c].status.Available? || chairs[c].order == Some(i))
  }

  lemma {:induction false} ReseatingKeepsChairs(o: Office, i: nat, row: Row)
    requires Seated(o) && i <= |o.orders|
    requires FreeFor(o.chairs, i, row)
    ensures forall c | c in o.chairs ::
              ChairFits(With(o.orders, i, row), c, Reseated(o.chairs, i, row)[c])
  {
    forall c | c in o.chairs
      ensures ChairFits(With(o.orders, i, row), c, Reseated(o.chairs, i, row)[c])
    {
      assert ChairFits(o.orders, c, o.chairs[c]);
    }
  }

  lemma {:induction false} ReseatingKeepsOwners(o: Office, i: nat, row: Row, j: nat)
    requires Seated(o) && i <= |o.orders| && j < |With(o.orders, i, row)|
    requires FreeFor(o.chairs, i, row)
    ensures HasItsChairs(Reseated(o.chairs, i, row), j, With(o.orders, i, row)[j])
  {
    if j != i {
      assert HasItsChairs(o.chairs, j, o.orders[j]);
      forall c | Names(o.orders[j].lines, c) && Owns(o.chairs, j, o.orders[j], c)
        ensures Owns(Reseated(o.chairs, i, row), j, o.orders[j], c)
      {
        assert ChairFits(o.orders, c, o.chairs[c]);
      }
    }
  }

  lemma {:induction false} RetallyingKeepsTallies(o: Office, i: nat, was: Row, row: Row, t: string)
    requires Fitting(o) && Tallied(o) && t in o.tiers && i <= |o.orders|
    requires was == if i < |o.orders| then o.orders[i] else NOTHING
    requires forall k | 0 <= k < |row.lines| :: row.lines[k].quantity >= 1
    requires OnHold(row, t) + Bought(row, t) <= OnHold(was, t) + Bought(was, t) || Room(o.tiers, row.lines)
    ensures TierTallies(With(o.orders, i, row), t, Retallied(o.tiers, was, row)[t])
  {
    assert TierTallies(o.orders, t, o.tiers[t]);
    if i < |o.orders| {
      SumsUpdated(o.orders, i, row, t);
      SumsAreNaturalWith(o, i, row, t);
    } else {
      SumsExtended(o.orders, row, t);
      SumsAreNatural(o, |o.orders|, t);
      TakeAll(o.orders);
    }
    DemandIsNatural(row.lines, t);
    assert OnHold(was, t) >= 0 && Bought(was, t) >= 0 by {
      if i < |o.orders| {
        QuantitiesOf(o, i);
        DemandIsNatural(was.lines, t);
      }
    }
    if Room(o.tiers, row.lines) && Demand(row.lines, t) > 0 {
      var k :| 0 <= k < |row.lines| && row.lines[k].tier == t;
      assert o.tiers[t].CanTake(Demand(row.lines, t));
    }
  }

  /** Replacing one order by another leaves every sum a sum of natural numbers. */
  lemma {:induction false} SumsAreNaturalWith(o: Office, i: nat, row: Row, t: string)
    requires Fitting(o) && i < |o.orders|
    requires forall k | 0 <= k < |row.lines| :: row.lines[k].quantity >= 1
    ensures SumOnHold(o.orders[i := row], t) >= 0 && SumBought(o.orders[i := row], t) >= 0
  {
    SumsUpdated(o.orders, i, row, t);
    SumsUpdated(o.orders, i, NOTHING, t);
    DemandIsNatural(row.lines, t);
    NaturalWithout(o, i, |o.orders|, t);
    TakeAll(o.orders[i := NOTHING]);
  }

  lemma {:induction false} NaturalWithout(o: Office, i: nat, n: nat, t: string)
    requires Fitting(o) && i < |o.orders| && n <= |o.orders|
    ensures SumOnHold(o.orders[i := NOTHING][..n], t) >= 0 && SumBought(o.orders[i := NOTHING][..n], t) >= 0
  {
    if n > 0 {
      var others := o.orders[i := NOTHING];
      NaturalWithout(o, i, n - 1, t);
      assert others[..n][..n - 1] == others[..n - 1];
      QuantitiesOf(o, n - 1);
      DemandIsNatural(o.orders[n - 1].lines, t);
    }
  }
}
