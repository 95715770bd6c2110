/**
 What each piece of news, each click and each clock does to the tables, said of the rows themselves:
 which status, which counters by how much, which chairs, which tickets, and that nothing else moves.
 (domain/order/order.go, usecases/checkout/service.go, usecases/payment/service.go)
 */
module SalesOutcomes {
  import opened Results
  import opened Text
  import opened Orders
  import opened Tickets
  import opened Basket
  import opened Sales
  import opened SalesInvariant
  import opened SalesSteps
  import opened SalesTheorems
  import opened BasketAcceptance

  // ------------------------------------------------------------- the tables

  /** Order `i` has a new status and perhaps a date; every other order is as it was. */
  ghost predicate OnlyStatus(o: Office, end: Office, i: nat, status: Status)
    requires i < |o.orders|
  {
    && |end.orders| == |o.orders|
    && (forall j | 0 <= j < |o.orders| && j != i :: end.orders[j] == o.orders[j])
    && end.orders[i].status == status
    && end.orders[i].lines == o.orders[i].lines && end.orders[i].event == o.orders[i].event
    && end.orders[i].holdExpiresAt == o.orders[i].holdExpiresAt && end.orders[i].confirmed == o.orders[i].confirmed
  }

  /** Of each tier, what the lines ask of it is added so many times to what is reserved and to what is sold. */
  ghost predicate CountersMove(o: Office, end: Office, lines: seq<Line>, reserved: int, sold: int) {
    && end.tiers.Keys == o.tiers.Keys
    && forall t | t in o.tiers ::
         && end.tiers[t].reserved == o.tiers[t].reserved + reserved * Demand(lines, t)
         && end.tiers[t].sold == o.tiers[t].sold + sold * Demand(lines, t)
         && end.tiers[t].quantity == o.tiers[t].quantity && end.tiers[t].event == o.tiers[t].event
         && end.tiers[t].status == o.tiers[t].status && end.tiers[t].area == o.tiers[t].area
  }

  /** The chairs the lines name are now so, and the others as they were. */
  ghost predicate ChairsBecome(o: Office, end: Office, lines: seq<Line>, status: ChairStatus, owner: Option<nat>) {
    && end.chairs.Keys == o.chairs.Keys
    && forall c | c in o.chairs ::
         && end.chairs[c].event == o.chairs[c].event && end.chairs[c].tier == o.chairs[c].tier
         && (if Names(lines, c) then end.chairs[c].status == status && end.chairs[c].order == owner
             else end.chairs[c] == o.chairs[c])
  }

  /** Order `i` is closed unpaid: what it held is free again, and it had no tickets to withdraw. */
  ghost predicate IsGivenBack(o: Office, end: Office, i: nat, status: Status)
    requires i < |o.orders|
  {
    && OnlyStatus(o, end, i, status)
    && CountersMove(o, end, o.orders[i].lines, -1, 0)
    && ChairsBecome(o, end, o.orders[i].lines, Available, None)
    && end.admissions == o.admissions
  }

  // --------------------------------------------------------------- chairs

  /** The chairs of a pending or paid order are the ones it names. */
  lemma {:induction false} ItsChairs(o: Office, i: nat, c: string)
    requires Seated(o) && i < |o.orders| && (o.orders[i].status.PendingPayment? || o.orders[i].status.Paid?)
    requires c in o.chairs
    ensures Names(o.orders[i].lines, c) <==> o.chairs[c].order == Some(i)
  {
    assert ChairFits(o.orders, c, o.chairs[c]);
    assert HasItsChairs(o.chairs, i, o.orders[i]);
    if Names(o.orders[i].lines, c) {
      assert Owns(o.chairs, i, o.orders[i], c);
    }
  }

  lemma {:induction false} ChairsGoBack(o: Office, i: nat, row: Row, c: string)
    requires Seated(o) && i < |o.orders| && (o.orders[i].status.PendingPayment? || o.orders[i].status.Paid?)
    requires !row.status.PendingPayment? && !row.status.Paid? && row.lines == o.orders[i].lines && c in o.chairs
    ensures Reseated(o.chairs, i, row)[c]
            == if Names(row.lines, c) then Chair(o.chairs[c].event, o.chairs[c].tier, Available, None) else o.chairs[c]
  {
    ItsChairs(o, i, c);
  }

  lemma {:induction false} ChairsAreSold(o: Office, i: nat, row: Row, c: string)
    requires Seated(o) && i < |o.orders| && o.orders[i].status.PendingPayment?
    requires row.status.Paid? && row.lines == o.orders[i].lines && c in o.chairs
    ensures Reseated(o.chairs, i, row)[c]
            == if Names(row.lines, c) then Chair(o.chairs[c].event, o.chairs[c].tier, Taken, Some(i)) else o.chairs[c]
  {
    ItsChairs(o, i, c);
  }

  // --------------------------------------------------------------- closing

  /** A pending order closed unpaid. */
  lemma {:induction false} ClosingGivesBack(o: Office, i: nat, next: Status, now: int)
    requires Inv(o) && i < |o.orders| && o.orders[i].status.PendingPayment? && next in {Expired, Cancelled, Failed}
    ensures IsGivenBack(o, Applied(o, i, next, now), i, next)
  {
    var row := o.orders[i].At(next, now);
    assert Applied(o, i, next, now) == Turned(o, i, next, now);
    forall c | c in o.chairs
      ensures Reseated(o.chairs, i, row)[c]
              == if Names(row.lines, c) then Chair(o.chairs[c].event, o.chairs[c].tier, Available, None) else o.chairs[c]
    {
      ChairsGoBack(o, i, row, c);
    }
  }

  // ----------------------------------------------------------- provider's news

  /** A rejected charge fails a pending order, and a withdrawn one expires it: all it held goes back on the shelf. */
  lemma {:induction false} ARejectionGivesBack(o: Office, i: nat, charge: ChargeStatus, now: int)
    requires Inv(o) && i < |o.orders| && o.orders[i].status.PendingPayment? && charge in {Rejected, ChargeCancelled}
    ensures IsGivenBack(o, Settled(o, i, charge, now), i, if charge.Rejected? then Failed else Expired)
  {
    ClosingGivesBack(o, i, if charge.Rejected? then Failed else Expired, now);
  }

  /** A payment in time: what was held is sold, to this order, and its tickets are minted. */
  lemma {:induction false} APaymentInTimeSells(o: Office, i: nat, now: int)
    requires Inv(o) && i < |o.orders| && o.orders[i].status.PendingPayment?
    ensures var end := Settled(o, i, ChargePaid, now);
            && OnlyStatus(o, end, i, Paid) && end.orders[i].paidAt == Some(now)
            && CountersMove(o, end, o.orders[i].lines, -1, 1)
            && ChairsBecome(o, end, o.orders[i].lines, Taken, Some(i))
            && o.admissions <= end.admissions && Given(end.admissions, i) == Minted(o.orders[i].lines)
            && forall a | |o.admissions| <= a < |end.admissions| ::
                 end.admissions[a].order == i && end.admissions[a].status.Issued? && end.admissions[a].admittedAt.None?
  {
    var row := o.orders[i].At(Paid, now);
    assert Settled(o, i, ChargePaid, now) == Turned(o, i, Paid, now);
    assert RowFits(o.tiers, o.chairs, o.orders[i]);
    forall c | c in o.chairs
      ensures Reseated(o.chairs, i, row)[c]
              == if Names(row.lines, c) then Chair(o.chairs[c].event, o.chairs[c].tier, Taken, Some(i)) else o.chairs[c]
    {
      ChairsAreSold(o, i, row, c);
    }
    assert HasItsCredentials(o.admissions, i, o.orders[i]);
    IssuingGives(o.admissions, i, o.orders[i].lines, i);
  }

  lemma {:induction false} RefundingTurns(o: Office, i: nat, charge: ChargeStatus, now: int)
    requires i < |o.orders| && (o.orders[i].status.Paid? || o.orders[i].status.RefundRequired?)
    requires charge in {ChargeRefunded, ChargedBack}
    ensures Settled(o, i, charge, now) == Turned(o, i, Refunded, now)
  {
  }

  /** A refund or a chargeback on a paid order: its stock is no longer sold, its chairs are free, its tickets void. */
  lemma {:induction false} ARefundTakesEverythingBack(o: Office, i: nat, charge: ChargeStatus, now: int)
    requires Inv(o) && i < |o.orders| && o.orders[i].status.Paid? && charge in {ChargeRefunded, ChargedBack}
    ensures var end := Settled(o, i, charge, now);
            && OnlyStatus(o, end, i, Refunded)
            && CountersMove(o, end, o.orders[i].lines, 0, -1)
            && ChairsBecome(o, end, o.orders[i].lines, Available, None)
            && |end.admissions| == |o.admissions|
            && forall a | 0 <= a < |o.admissions| ::
                 if o.admissions[a].order == i then end.admissions[a].status.Void? && end.admissions[a].admittedAt == o.admissions[a].admittedAt
                 else end.admissions[a] == o.admissions[a]
  {
    var row := o.orders[i].At(Refunded, now);
    RefundingTurns(o, i, charge, now);
    forall c | c in o.chairs
      ensures Reseated(o.chairs, i, row)[c]
              == if Names(row.lines, c) then Chair(o.chairs[c].event, o.chairs[c].tier, Available, None) else o.chairs[c]
    {
      ChairsGoBack(o, i, row, c);
    }
  }

  /** A refund of money that bought nothing: the order is refunded, and that is all. */
  lemma {:induction false} AnOwedRefundIsPaid(o: Office, i: nat, charge: ChargeStatus, now: int)
    requires Inv(o) && i < |o.orders| && o.orders[i].status.RefundRequired? && charge in {ChargeRefunded, ChargedBack}
    ensures var end := Settled(o, i, charge, now);
            && OnlyStatus(o, end, i, Refunded)
            && end.tiers == o.tiers && end.chairs == o.chairs && end.admissions == o.admissions
  {
    var row := o.orders[i].At(Refunded, now);
    RefundingTurns(o, i, charge, now);
    assert Retallied(o.tiers, o.orders[i], row) == o.tiers;
    forall c | c in o.chairs
      ensures Reseated(o.chairs, i, row)[c] == o.chairs[c]
    {
      OwnsNothing(o, i, c);
    }
    assert Reseated(o.chairs, i, row) == o.chairs;
    NoTicketsOf(o, i);
    assert VoidedFor(o.admissions, i, now) == o.admissions;
  }

  lemma {:induction false} NoTicketsOf(o: Office, i: nat)
    requires Admitting(o) && i < |o.orders| && o.orders[i].status.RefundRequired?
    ensures forall a | 0 <= a < |o.admissions| :: o.admissions[a].order != i
  {
    forall a | 0 <= a < |o.admissions|
      ensures o.admissions[a].order != i
    {
      assert AdmissionFits(o.orders, o.admissions[a]);
    }
  }

  /** A late payment finds everything when every chair is free and every tier can still give all that was asked of it. */
  lemma {:induction false} RetakingNeeds(o: Office, row: Row)
    ensures CanRetake(o, row) <==>
            forall k | 0 <= k < |row.lines| ::
              && row.lines[k].tier in o.tiers && StillGives(o.tiers[row.lines[k].tier], Demand(row.lines, row.lines[k].tier))
              && (row.lines[k].seat.Some? ==>
                    && row.lines[k].seat.value in o.chairs && o.chairs[row.lines[k].seat.value].status.Available?
                    && o.chairs[row.lines[k].seat.value].event == row.event
                    && o.chairs[row.lines[k].seat.value].tier == row.lines[k].tier)
  {
  }

  predicate StillGives(tier: Tier, n: int) {
    && tier.status.OnSale? && n <= tier.quantity - tier.sold - tier.reserved
    && (tier.area.Some? ==> n <= tier.area.value - tier.sold - tier.reserved)
  }

  /** The provider's news, and what an order must be for it to move anything. */
  predicate Moves(charge: ChargeStatus, s: Status) {
    match charge
    case ChargePaid => s in {PendingPayment, Expired, Cancelled, Failed}
    case Rejected => s.PendingPayment?
    case ChargeCancelled => s.PendingPayment?
    case ChargeRefunded => s in {Paid, RefundRequired}
    case ChargedBack => s in {Paid, RefundRequired}
    case ChargePending => false
    case InAnalysis => false
  }

  lemma {:induction false} VerdictMoves(o: Office, row: Row, charge: ChargeStatus)
    requires row.status.Valid()
    ensures Moves(charge, row.status)
       <==> Verdict(o, row, charge).Some? && Decision(row.status, Verdict(o, row, charge).value) == Ok(true)
  {
    var retake := CanRetake(o, row);
    assert Verdict(o, row, charge) == VerdictIf(retake, row.status, charge);
  }

  function VerdictIf(retake: bool, s: Status, charge: ChargeStatus): Option<Status> {
    match StatusFor(charge)
    case None => None
    case Some(next) => Some(if next.Paid? && !s.PendingPayment? && !retake then RefundRequired else next)
  }

  lemma {:induction false} ApplyingMoves(o: Office, i: nat, next: Status, now: int)
    requires i < |o.orders|
    ensures Applied(o, i, next, now).orders[i].status != o.orders[i].status <==> Decision(o.orders[i].status, next) == Ok(true)
    ensures Decision(o.orders[i].status, next) != Ok(true) ==> Applied(o, i, next, now) == o
  {
  }

  /** All other news, a charge still pending or under analysis above all, changes nothing at all. */
  lemma {:induction false} NewsMovesExactlyThese(o: Office, i: nat, charge: ChargeStatus, now: int)
    requires Inv(o) && i < |o.orders|
    ensures Settled(o, i, charge, now).orders[i].status != o.orders[i].status <==> Moves(charge, o.orders[i].status)
    ensures !Moves(charge, o.orders[i].status) ==> Settled(o, i, charge, now) == o
  {
    assert RowFits(o.tiers, o.chairs, o.orders[i]);
    VerdictMoves(o, o.orders[i], charge);
    if Verdict(o, o.orders[i], charge).Some? {
      ApplyingMoves(o, i, Verdict(o, o.orders[i], charge).value, now);
    }
  }

  // ------------------------------------------------------- the buyer, the clock

  /** Giving up works on a pending order, and on no other. */
  lemma {:induction false} CancellingIs(o: Office, i: nat, now: int)
    requires Inv(o) && i < |o.orders|
    ensures if o.orders[i].status.PendingPayment? then IsGivenBack(o, Applied(o, i, Cancelled, now), i, Cancelled)
            else Applied(o, i, Cancelled, now) == o
  {
    if o.orders[i].status.PendingPayment? {
      ClosingGivesBack(o, i, Cancelled, now);
    } else {
      ApplyingMoves(o, i, Cancelled, now);
    }
  }

  /** A hold ends at its instant, not before, and only while the order is pending. */
  lemma {:induction false} ExpiringIs(o: Office, i: nat, now: int)
    requires Inv(o) && i < |o.orders|
    ensures if o.orders[i].status.PendingPayment? && o.orders[i].holdExpiresAt <= now
            then IsGivenBack(o, Lapsed(o, i, now), i, Expired) else Lapsed(o, i, now) == o
  {
    if o.orders[i].status.PendingPayment? && o.orders[i].holdExpiresAt <= now {
      ClosingGivesBack(o, i, Expired, now);
    }
  }

  /** The form confirms a pending order whose hold stands, once, and gives it the longer of the two windows. */
  lemma {:induction false} PressingIs(o: Office, i: nat, formIsValid: bool, holdFor: int, now: int)
    requires i < |o.orders|
    ensures var was, end := o.orders[i], Pressed(o, i, formIsValid, holdFor, now);
            && end.tiers == o.tiers && end.chairs == o.chairs && end.admissions == o.admissions
            && |end.orders| == |o.orders| && (forall j | 0 <= j < |o.orders| && j != i :: end.orders[j] == o.orders[j])
            && (if was.status.PendingPayment? && now < was.holdExpiresAt && formIsValid && !was.confirmed then
                  && end.orders[i].confirmed
                  && end.orders[i].holdExpiresAt == (if was.holdExpiresAt < now + holdFor then now + holdFor else was.holdExpiresAt)
                  && end.orders[i].status == was.status && end.orders[i].lines == was.lines && end.orders[i].event == was.event
                  && end.orders[i].paidAt == was.paidAt && end.orders[i].closedAt == was.closedAt
                else end.orders[i] == was)
  {
  }

  // ------------------------------------------------------------ the operator

  /** Nothing but one tier's quantity and status. */
  ghost predicate OnlyTier(o: Office, end: Office, t: string, quantity: int, status: TierStatus) {
    && t in o.tiers && end.tiers.Keys == o.tiers.Keys
    && end.chairs == o.chairs && end.orders == o.orders && end.admissions == o.admissions
    && (forall u | u in o.tiers && u != t :: end.tiers[u] == o.tiers[u])
    && end.tiers[t].quantity == quantity && end.tiers[t].status == status
    && end.tiers[t].sold == o.tiers[t].sold && end.tiers[t].reserved == o.tiers[t].reserved
    && end.tiers[t].event == o.tiers[t].event && end.tiers[t].area == o.tiers[t].area
  }

  /**
   An edit lands when its form is whole, its quantity covers what the operator saw taken, and covers too
   what is taken by now.
   */
  lemma {:induction false} EditingIs(o: Office, t: string, seen: Tier, draft: TierDraft)
    requires Inv(o)
    ensures var end := Edited(o, t, seen, draft);
            if Trim(draft.event) != "" && Trim(draft.title) != "" && draft.priceCents >= 0
               && draft.quantity > 0 && draft.quantity >= seen.sold + seen.reserved
               && t in o.tiers && draft.quantity >= o.tiers[t].sold + o.tiers[t].reserved
            then OnlyTier(o, end, t, draft.quantity, if draft.status.Some? then draft.status.value else seen.status)
            else end == o
  {
    assert t in o.tiers ==> TierTallies(o.orders, t, o.tiers[t]);
  }

  /** A change of status is refused only to a tier seen with nothing left going on sale, or one that outgrew the copy. */
  lemma {:induction false} RelistingIs(o: Office, t: string, seen: Tier, next: TierStatus)
    requires Inv(o)
    ensures var end := Relisted(o, t, seen, next);
            if (next.OnSale? ==> seen.quantity > seen.sold + seen.reserved)
               && t in o.tiers && seen.quantity >= o.tiers[t].sold + o.tiers[t].reserved
            then OnlyTier(o, end, t, seen.quantity, next)
            else end == o
  {
    assert t in o.tiers ==> TierTallies(o.orders, t, o.tiers[t]);
  }

  /** Free chairs of the event among those named go off sale, blocked ones come back, and no other chair is touched. */
  lemma {:induction false} BlockingIs(o: Office, event: string, ids: seq<string>, c: string)
    requires c in o.chairs
    ensures var was, off, on := o.chairs[c], Withheld(o, event, ids), Restored(o, event, ids);
            var named := was.event == event && exists k | 0 <= k < |ids| :: Trim(ids[k]) == c && c != "";
            && off.chairs.Keys == o.chairs.Keys && on.chairs.Keys == o.chairs.Keys
            && off.chairs[c] == (if named && was.status.Available? then was.(status := Blocked) else was)
            && on.chairs[c] == (if named && was.status.Blocked? then was.(status := Available) else was)
            && off.tiers == o.tiers == on.tiers && off.orders == o.orders == on.orders
            && off.admissions == o.admissions == on.admissions
  {
    SeatSetIsChairs(ids);
  }

  // ---------------------------------------------------------------- the door

  /** A ticket lets somebody in once, if it is issued and stands; a second scan, or one of a void ticket, changes nothing. */
  lemma {:induction false} ScanningIs(o: Office, a: nat, now: int)
    ensures var end := Scanned(o, a, now);
            && end.tiers == o.tiers && end.chairs == o.chairs && end.orders == o.orders && |end.admissions| == |o.admissions|
            && forall b | 0 <= b < |o.admissions| ::
                 end.admissions[b] == (if a == b && o.admissions[b].status.Issued?
                                       then Admission(o.admissions[b].order, o.admissions[b].credential, Admitted,
                                                      Some(now), o.admissions[b].voidedAt)
                                       else o.admissions[b])
  {
  }

  // ------------------------------------------------------------------- dates

  /** The date of a payment is written by a payment, that of a closing by anything else but a payment. */
  lemma {:induction false} DatesAre(row: Row, next: Status, now: int)
    requires !next.Unrecognised? && !next.PendingPayment?
    ensures row.At(next, now).paidAt == (if next.Paid? && row.paidAt.None? then Some(now) else row.paidAt)
    ensures row.At(next, now).closedAt
            == (if next in {Expired, Cancelled, Failed, Refunded, RefundRequired} && row.closedAt.None? then Some(now) else row.closedAt)
  {
  }

  /** Which changes of status an order can be told of, told as the life it leads. */
  lemma {:induction false} TheLifeOfAnOrder(s: Status, next: Status)
    ensures CanTransition(s, next) <==>
              || (s.PendingPayment? && next in {Paid, Expired, Cancelled, Failed, RefundRequired})
              || (s in {Expired, Cancelled, Failed} && next in {Paid, RefundRequired})
              || (s in {Paid, RefundRequired} && next.Refunded?)
  {
  }
}
