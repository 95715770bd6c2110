/**
 What the sale protocol promises over every interleaving: stock, chairs, statuses, redeliveries
 and the door.
 */
module SalesTheorems {
  import opened Results
  import opened Text
  import opened Orders
  import opened Tickets
  import opened Sales
  import opened SalesInvariant
  import opened SalesSteps

  // -------------------------------------------------------------------- stock

  /**
   Whatever ran, each tier's counters are the quantities on its pending and on its paid orders,
   and it was never oversold.
   */
  lemma {:induction false} CountersNeverDrift(o: Office, steps: seq<(Step, int)>, t: string)
    requires Opening(o) && t in Run(o, steps).tiers
    ensures var end := Run(o, steps);
            && end.tiers[t].reserved == SumOnHold(end.orders, t)
            && end.tiers[t].sold == SumBought(end.orders, t)
            && 0 <= SumOnHold(end.orders, t) && 0 <= SumBought(end.orders, t)
            && SumOnHold(end.orders, t) + SumBought(end.orders, t) <= end.tiers[t].quantity
  {
    OpeningIsValid(o);
    EveryRunKeepsInv(o, steps);
    assert TierTallies(Run(o, steps).orders, t, Run(o, steps).tiers[t]);
  }

  /** No chair is held or owned by two orders at once. */
  lemma {:induction false} NoChairIsSoldTwice(o: Office, steps: seq<(Step, int)>, i: nat, j: nat, c: string)
    requires Opening(o)
    requires var orders := Run(o, steps).orders;
             && i < |orders| && j < |orders|
             && (orders[i].status.HoldsStock() || orders[i].status.Paid?)
             && (orders[j].status.HoldsStock() || orders[j].status.Paid?)
             && Names(orders[i].lines, c) && Names(orders[j].lines, c)
    ensures i == j
  {
    OpeningIsValid(o);
    EveryRunKeepsInv(o, steps);
    var end := Run(o, steps);
    assert HasItsChairs(end.chairs, i, end.orders[i]) && HasItsChairs(end.chairs, j, end.orders[j]);
    assert Owns(end.chairs, i, end.orders[i], c) && Owns(end.chairs, j, end.orders[j], c);
  }

  /** Only a pending or paid order has chairs. */
  lemma {:induction false} OwnsNothing(o: Office, i: nat, c: string)
    requires Seated(o) && c in o.chairs
    requires i < |o.orders| ==> !o.orders[i].status.HoldsStock() && !o.orders[i].status.Paid?
    ensures o.chairs[c].order != Some(i)
  {
    assert ChairFits(o.orders, c, o.chairs[c]);
  }

  /** Taking free chairs and giving them back leaves them as they were. */
  lemma {:induction false} ReseatingBack(chairs: map<string, Chair>, i: nat, row: Row, gone: Row)
    requires row.status.HoldsStock() && !gone.status.HoldsStock() && !gone.status.Paid?
    requires AllFree(chairs, row.event, row.lines)
    requires forall c | c in chairs ::
               chairs[c].order != Some(i) && (chairs[c].status.Available? ==> chairs[c].order.None?)
    ensures Reseated(Reseated(chairs, i, row), i, gone) == chairs
  {
    forall c | c in chairs
      ensures Reseated(Reseated(chairs, i, row), i, gone)[c] == chairs[c]
    {
      if Names(row.lines, c) {
        var k :| 0 <= k < |row.lines| && row.lines[k].seat == Some(c);
        assert Claimable(chairs, row.event, row.lines[k].tier, c);
      }
    }
  }

  /** A buyer who changes their mind at once leaves the shelf exactly as it was. */
  lemma {:induction false} CancellingUndoesPlacing(o: Office, row: Row, now: int)
    requires Inv(o) && Placeable(o, row)
    ensures var end := Applied(Placed(o, row), |o.orders|, Cancelled, now);
            end.tiers == o.tiers && end.chairs == o.chairs && end.admissions == o.admissions
  {
    var i, gone := |o.orders|, row.At(Cancelled, now);
    RetallyingBack(o.tiers, row, gone);
    NobodysChairs(o, i);
    ReseatingBack(o.chairs, i, row, gone);
    CancellingThePlaced(o, row, now);
  }

  lemma {:induction false} RetallyingBack(tiers: map<string, Tier>, row: Row, gone: Row)
    requires row.status.HoldsStock() && !gone.status.HoldsStock() && !gone.status.Paid?
    ensures Retallied(Retallied(tiers, NOTHING, row), row, gone) == tiers
  {
  }

  lemma {:induction false} NobodysChairs(o: Office, i: nat)
    requires Seated(o) && i >= |o.orders|
    ensures forall c | c in o.chairs ::
              o.chairs[c].order != Some(i) && (o.chairs[c].status.Available? ==> o.chairs[c].order.None?)
  {
    forall c | c in o.chairs
      ensures o.chairs[c].order != Some(i) && (o.chairs[c].status.Available? ==> o.chairs[c].order.None?)
    {
      assert ChairFits(o.orders, c, o.chairs[c]);
    }
  }

  lemma {:induction false} CancellingThePlaced(o: Office, row: Row, now: int)
    requires row.status.HoldsStock()
    ensures var i, gone, placed := |o.orders|, row.At(Cancelled, now), Placed(o, row);
            var end := Applied(placed, i, Cancelled, now);
            && end.tiers == Retallied(placed.tiers, row, gone)
            && end.chairs == Reseated(placed.chairs, i, gone)
            && end.admissions == o.admissions
  {
    assert Placed(o, row).orders[|o.orders|] == row;
  }

  /** A hold that lapsed: expired, cancelled, or its payment failed. */
  predicate HasLapsed(row: Row) { row.status in {Expired, Cancelled, Failed} }

  /**
   A payment on a hold that lapsed, the very chairs and the counted stock still being there: the
   order is paid, owns them, and has its tickets.
   */
  lemma {:induction false} LatePaymentIsHonoured(o: Office, i: nat, now: int)
    requires Inv(o) && i < |o.orders| && HasLapsed(o.orders[i]) && CanRetake(o, o.orders[i])
    ensures var end := Settled(o, i, ChargePaid, now);
            var row := o.orders[i];
            && end.orders[i].status.Paid?
            && (forall c | Names(row.lines, c) :: Owns(end.chairs, i, end.orders[i], c))
            && (forall t | t in o.tiers ::
                  end.tiers[t] == o.tiers[t].(sold := o.tiers[t].sold + Demand(row.lines, t)))
            && Given(end.admissions, i) == Minted(row.lines)
  {
    var end := Settled(o, i, ChargePaid, now);
    HonouringTurns(o, i, now);
    SettlingKeepsInv(o, i, ChargePaid, now);
    OwnsWhatItPaidFor(end, i);
    HasTheTicketsItPaidFor(end, i);
  }

  lemma {:induction false} HonouringTurns(o: Office, i: nat, now: int)
    requires i < |o.orders| && HasLapsed(o.orders[i]) && CanRetake(o, o.orders[i])
    ensures var end := Settled(o, i, ChargePaid, now);
            && end.orders == o.orders[i := o.orders[i].At(Paid, now)]
            && end.tiers.Keys == o.tiers.Keys
            && (forall t | t in o.tiers ::
                  end.tiers[t] == o.tiers[t].(sold := o.tiers[t].sold + Demand(o.orders[i].lines, t)))
  {
    assert Settled(o, i, ChargePaid, now) == Turned(o, i, Paid, now);
  }

  lemma {:induction false} HasTheTicketsItPaidFor(o: Office, i: nat)
    requires Admitting(o) && i < |o.orders| && o.orders[i].paidAt.Some?
    ensures Given(o.admissions, i) == Minted(o.orders[i].lines)
  {
    assert HasItsCredentials(o.admissions, i, o.orders[i]);
  }

  lemma {:induction false} OwnsWhatItPaidFor(o: Office, i: nat)
    requires Seated(o) && i < |o.orders| && o.orders[i].status.Paid?
    ensures forall c | Names(o.orders[i].lines, c) :: Owns(o.chairs, i, o.orders[i], c)
  {
    assert HasItsChairs(o.chairs, i, o.orders[i]);
  }

  /** The same payment with a chair or the stock gone: a refund is owed and nothing else moves. */
  lemma {:induction false} LatePaymentIsOwed(o: Office, i: nat, now: int)
    requires Inv(o) && i < |o.orders| && HasLapsed(o.orders[i]) && !CanRetake(o, o.orders[i])
    ensures Settled(o, i, ChargePaid, now) == o.(orders := o.orders[i := o.orders[i].At(RefundRequired, now)])
  {
    var row := o.orders[i].At(RefundRequired, now);
    assert Settled(o, i, ChargePaid, now) == Turned(o, i, RefundRequired, now);
    assert Retallied(o.tiers, o.orders[i], row) == o.tiers;
    forall c | c in o.chairs
      ensures o.chairs[c].order != Some(i)
    {
      OwnsNothing(o, i, c);
    }
    assert Reseated(o.chairs, i, row) == o.chairs;
  }

  // ----------------------------------------------------------------- statuses

  /** An order keeps what it is for and only ever climbs. */
  ghost predicate Climbs(a: Office, b: Office, i: nat) {
    i < |a.orders| ==>
      && i < |b.orders|
      && b.orders[i].lines == a.orders[i].lines && b.orders[i].event == a.orders[i].event
      && (b.orders[i].status == a.orders[i].status || Rank(b.orders[i].status) > Rank(a.orders[i].status))
  }

  lemma {:induction false} ApplyingClimbs(o: Office, i: nat, next: Status, now: int, j: nat)
    ensures Climbs(o, Applied(o, i, next, now), j)
  {
    if i < |o.orders| && Decision(o.orders[i].status, next) == Ok(true) {
      TransitionsClimb(o.orders[i].status, next);
    }
  }

  lemma {:induction false} SweepingClimbs(o: Office, picks: seq<nat>, now: int, j: nat)
    ensures Climbs(o, Swept(o, picks, now), j)
  {
    if picks != [] {
      SweepingClimbs(o, picks[..|picks| - 1], now, j);
      ApplyingClimbs(Swept(o, picks[..|picks| - 1], now), picks[|picks| - 1], Expired, now, j);
    }
  }

  lemma {:induction false} StepClimbs(o: Office, step: Step, now: int, j: nat)
    ensures Climbs(o, After(o, step, now), j)
  {
    match step {
      case Cancel(i) => ApplyingClimbs(o, i, Cancelled, now, j);
      case Expire(i) => ApplyingClimbs(o, i, Expired, now, j);
      case Sweep(picks) => SweepingClimbs(o, picks, now, j);
      case Settle(i, charge) =>
        if i < |o.orders| && Verdict(o, o.orders[i], charge).Some? {
          ApplyingClimbs(o, i, Verdict(o, o.orders[i], charge).value, now, j);
        }
      case _ =>
    }
  }

  lemma {:induction false} RunClimbs(o: Office, steps: seq<(Step, int)>, j: nat)
    ensures Climbs(o, Run(o, steps), j)
  {
    if steps != [] {
      var n := |steps| - 1;
      RunClimbs(o, steps[..n], j);
      StepClimbs(Run(o, steps[..n]), steps[n].0, steps[n].1, j);
    }
  }

  /** How many of the steps changed the status of order `i`, which is there from the start. */
  ghost function StatusChanges(o: Office, steps: seq<(Step, int)>, i: nat): nat {
    if steps == [] then 0
    else
      var before, after := Run(o, steps[..|steps| - 1]), Run(o, steps);
      StatusChanges(o, steps[..|steps| - 1], i)
      + if i < |before.orders| && i < |after.orders| && before.orders[i].status != after.orders[i].status then 1 else 0
  }

  lemma {:induction false} AtMostThreeStatusChanges(o: Office, steps: seq<(Step, int)>, i: nat)
    requires i < |o.orders|
    ensures i < |Run(o, steps).orders|
    ensures StatusChanges(o, steps, i) <= Rank(Run(o, steps).orders[i].status) - Rank(o.orders[i].status) <= 3
  {
    if steps != [] {
      var n := |steps| - 1;
      AtMostThreeStatusChanges(o, steps[..n], i);
      StepClimbs(Run(o, steps[..n]), steps[n].0, steps[n].1, i);
    }
  }

  // ------------------------------------------------------------- redelivery

  lemma {:induction false} NothingLeftToApply(s: Status, o: Office, row: Row, charge: ChargeStatus, reached: Status)
    requires reached in {Paid, RefundRequired, Failed, Expired, Refunded}
    requires row.status == reached || Rank(row.status) > Rank(reached)
    requires StatusFor(charge) == Some(reached) || (charge.ChargePaid? && reached.RefundRequired?)
    requires Verdict(o, row, charge) == Some(s)
    ensures Decision(row.status, s) != Ok(true)
  {
  }

  /**
   Once a delivery has moved an order, delivering the same news again, at any later time and after
   anything else happened, changes nothing at all.
   */
  lemma {:induction false} RedeliveryChangesNothing(
      o: Office, i: nat, charge: ChargeStatus, now: int, steps: seq<(Step, int)>, later: int)
    requires i < |o.orders|
    requires Settled(o, i, charge, now).orders[i].status != o.orders[i].status
    ensures var then_ := Run(Settled(o, i, charge, now), steps);
            Settled(then_, i, charge, later) == then_
  {
    var first := Settled(o, i, charge, now);
    var then_ := Run(first, steps);
    var reached := first.orders[i].status;
    RunClimbs(first, steps, i);
    assert Verdict(o, o.orders[i], charge) == Some(reached);
    var again := Verdict(then_, then_.orders[i], charge);
    if again.Some? {
      NothingLeftToApply(again.value, then_, then_.orders[i], charge, reached);
    }
  }
}
