/**
 What a checkout does to the tables, said of the basket line by line and of the rows themselves.
 (usecases/checkout/service.go, usecases/checkout/seating.go, domain/order/order.go)
 */
module StartOutcomes {
  import opened Results
  import opened Text
  import opened Orders
  import opened Tickets
  import opened Basket
  import opened Sales
  import opened SalesInvariant
  import opened SalesSteps
  import opened SalesOutcomes
  import opened StartMoves

  // ---------------------------------------------------------- one basket line

  /** The tier is of the event and on sale, and the line's tickets are left in it and in the area it is bound to. */
  ghost predicate HasTickets(o: Office, event: string, d: DraftItem) {
    && d.ticketId in o.tiers && o.tiers[d.ticketId].event == event && o.tiers[d.ticketId].status.OnSale?
    && 0 < d.quantity <= o.tiers[d.ticketId].quantity - o.tiers[d.ticketId].sold - o.tiers[d.ticketId].reserved
    && (o.tiers[d.ticketId].area.Some? ==>
          o.tiers[d.ticketId].sold + o.tiers[d.ticketId].reserved + d.quantity <= o.tiers[d.ticketId].area.value)
  }

  /** Its chairs are the tier's, of the event, and free; or it names none and the tier has none. */
  ghost predicate HasChairsFor(o: Office, event: string, d: DraftItem) {
    if d.seatIds == [] then forall c | c in o.chairs && o.chairs[c].tier == d.ticketId :: o.chairs[c].event != event
    else forall c | c in d.seatIds ::
           c in o.chairs && o.chairs[c].tier == d.ticketId && o.chairs[c].event == event && o.chairs[c].status.Available?
  }

  ghost predicate HasAll(o: Office, event: string, wanted: seq<DraftItem>) {
    forall k | 0 <= k < |wanted| :: HasTickets(o, event, wanted[k]) && HasChairsFor(o, event, wanted[k])
  }

  /** Every line can be had, all of one event, ten tickets at the most. */
  ghost predicate CanBeHad(o: Office, wanted: seq<DraftItem>) {
    && wanted != [] && wanted[0].ticketId in o.tiers
    && HasAll(o, o.tiers[wanted[0].ticketId].event, wanted)
    && Quantities(wanted) <= 10
  }

  lemma {:induction false} OnOfferIs(o: Office, event: string, d: DraftItem)
    ensures OnOffer(o.tiers, event, d) && Gives(o.tiers, d) <==> HasTickets(o, event, d)
  {
  }

  lemma {:induction false} ChairsForIs(o: Office, event: string, d: DraftItem)
    ensures ChoosesChairs(o.chairs, event, d) && AllClaimable(o.chairs, event, d) <==> HasChairsFor(o, event, d)
  {
    if d.seatIds != [] && HasChairsFor(o, event, d) {
      forall j | 0 <= j < |d.seatIds|
        ensures Claimable(o.chairs, event, d.ticketId, d.seatIds[j])
      {
        assert d.seatIds[j] in d.seatIds;
      }
    }
  }

  // ----------------------------------------------------- the order's own lines

  lemma {:induction false} ItemIsThere(wanted: seq<DraftItem>, k: nat, j: nat) returns (n: nat)
    requires k < |wanted| && j < |LinesOf(wanted[k])|
    ensures n < |Expanded(wanted)| && Expanded(wanted)[n] == LinesOf(wanted[k])[j]
  {
    var m := |wanted| - 1;
    if k < m {
      n := ItemIsThere(wanted[..m], k, j);
    } else {
      n := |Expanded(wanted[..m])| + j;
    }
  }

  /** Free chairs, line by line of the order or line by line of the basket. */
  lemma {:induction false} FreeIsEachItem(o: Office, event: string, wanted: seq<DraftItem>)
    ensures AllFree(o.chairs, event, Expanded(wanted))
       <==> forall k | 0 <= k < |wanted| :: AllClaimable(o.chairs, event, wanted[k])
  {
    if AllFree(o.chairs, event, Expanded(wanted)) {
      forall k, j | 0 <= k < |wanted| && 0 <= j < |wanted[k].seatIds|
        ensures Claimable(o.chairs, event, wanted[k].ticketId, wanted[k].seatIds[j])
      {
        var n := ItemIsThere(wanted, k, j);
      }
    }
    if forall k | 0 <= k < |wanted| :: AllClaimable(o.chairs, event, wanted[k]) {
      forall n | 0 <= n < |Expanded(wanted)| && Expanded(wanted)[n].seat.Some?
        ensures Claimable(o.chairs, event, Expanded(wanted)[n].tier, Expanded(wanted)[n].seat.value)
      {
        var k := LineComesFrom(wanted, n);
        assert AllClaimable(o.chairs, event, wanted[k]);
      }
    }
  }

  lemma {:induction false} TicketsOfConcat(a: seq<Line>, b: seq<Line>)
    ensures TicketsIn(a + b) == TicketsIn(a) + TicketsIn(b)
    decreases |b|
  {
    if b == [] {
      assert a + b == a;
    } else {
      var n := |b| - 1;
      assert (a + b)[..|a + b| - 1] == a + b[..n];
      TicketsOfConcat(a, b[..n]);
    }
  }

  lemma {:induction false} TicketsOfChairs(d: DraftItem, n: nat)
    requires d.Seated() && n <= |d.seatIds|
    ensures TicketsIn(LinesOf(d)[..n]) == n
  {
    if n > 0 {
      assert LinesOf(d)[..n][..n - 1] == LinesOf(d)[..n - 1];
      TicketsOfChairs(d, n - 1);
    }
  }

  lemma {:induction false} TicketsOfItem(d: DraftItem)
    requires d.Seated() ==> d.quantity == |d.seatIds|
    ensures TicketsIn(LinesOf(d)) == d.quantity
  {
    if d.Seated() {
      TicketsOfChairs(d, |d.seatIds|);
      TakeAll(LinesOf(d));
    } else {
      assert LinesOf(d)[..0] == [];
    }
  }

  lemma {:induction false} TicketsOfBasket(wanted: seq<DraftItem>)
    requires Tidy(wanted)
    ensures TicketsIn(Expanded(wanted)) == Quantities(wanted)
  {
    if wanted != [] {
      var n := |wanted| - 1;
      TicketsOfBasket(wanted[..n]);
      TicketsOfConcat(Expanded(wanted[..n]), LinesOf(wanted[n]));
      TicketsOfItem(wanted[n]);
    }
  }

  // ------------------------------------------------------------ when it starts

  lemma {:induction false} OfferedIs(o: Office, event: string, wanted: seq<DraftItem>)
    requires Tidy(wanted)
    ensures Offerable(o, event, wanted) && AllFree(o.chairs, event, Expanded(wanted)) && Room(o.tiers, Expanded(wanted))
       <==> HasAll(o, event, wanted)
  {
    FreeIsEachItem(o, event, wanted);
    RoomIsEachTier(o.tiers, wanted);
    forall k | 0 <= k < |wanted|
      ensures OnOffer(o.tiers, event, wanted[k]) && Gives(o.tiers, wanted[k]) <==> HasTickets(o, event, wanted[k])
      ensures ChoosesChairs(o.chairs, event, wanted[k]) && AllClaimable(o.chairs, event, wanted[k])
              <==> HasChairsFor(o, event, wanted[k])
    {
      OnOfferIs(o, event, wanted[k]);
      ChairsForIs(o, event, wanted[k]);
    }
  }

  lemma {:induction false} TakeableIs(o: Office, wanted: seq<DraftItem>)
    requires Tidy(wanted)
    ensures Takeable(o, wanted) <==> CanBeHad(o, wanted)
  {
    if wanted != [] && wanted[0].ticketId in o.tiers {
      OfferedIs(o, o.tiers[wanted[0].ticketId].event, wanted);
      TicketsOfBasket(wanted);
    }
  }

  // ----------------------------------------------------------- what it leaves

  /** An order of one ticket per chair named and of one line per counted tier. */
  ghost predicate IsFor(lines: seq<Line>, wanted: seq<DraftItem>) {
    && (forall k | 0 <= k < |wanted| :: Demand(lines, wanted[k].ticketId) == wanted[k].quantity)
    && (forall k | 0 <= k < |wanted| :: forall c | c in wanted[k].seatIds :: Line(wanted[k].ticketId, 1, Some(c)) in lines)
    && (forall n | 0 <= n < |lines| :: exists k | 0 <= k < |wanted| :: IsLineOf(lines[n], wanted[k]))
  }

  ghost predicate IsLineOf(line: Line, d: DraftItem) {
    && line.tier == d.ticketId
    && (if d.seatIds == [] then line.seat.None? && line.quantity == d.quantity
        else line.seat.Some? && line.seat.value in d.seatIds && line.quantity == 1)
  }

  lemma {:induction false} ExpandedIsFor(wanted: seq<DraftItem>)
    requires Tidy(wanted)
    ensures IsFor(Expanded(wanted), wanted)
  {
    var lines := Expanded(wanted);
    forall k | 0 <= k < |wanted|
      ensures Demand(lines, wanted[k].ticketId) == wanted[k].quantity
    {
      ItemsDemand(wanted, k);
    }
    forall k, c | 0 <= k < |wanted| && c in wanted[k].seatIds
      ensures Line(wanted[k].ticketId, 1, Some(c)) in lines
    {
      ChairHasItsLine(wanted, k, c);
    }
    forall n | 0 <= n < |lines|
      ensures exists k | 0 <= k < |wanted| :: IsLineOf(lines[n], wanted[k])
    {
      var k := LineHasItsItem(wanted, n);
    }
  }

  lemma {:induction false} ChairHasItsLine(wanted: seq<DraftItem>, k: nat, c: string)
    requires k < |wanted| && c in wanted[k].seatIds
    ensures Line(wanted[k].ticketId, 1, Some(c)) in Expanded(wanted)
  {
    var j :| 0 <= j < |wanted[k].seatIds| && wanted[k].seatIds[j] == c;
    var n := ItemIsThere(wanted, k, j);
  }

  lemma {:induction false} LineHasItsItem(wanted: seq<DraftItem>, n: nat) returns (k: nat)
    requires n < |Expanded(wanted)|
    ensures k < |wanted| && IsLineOf(Expanded(wanted)[n], wanted[k])
  {
    k := LineComesFrom(wanted, n);
  }

  /**
   A checkout of a basket that can be had, on a valid form, opens one order for it, pending until its window
   ends, and holds its tickets and its chairs; any other leaves every table as it was.
   */
  lemma {:induction false} StartingIs(o: Office, p: Purchase, now: int)
    requires Inv(o)
    ensures var wanted, end := Normalized(p.items), Started(o, p, now);
            if wanted.Ok? && CanBeHad(o, wanted.value) && p.formIsValid then
              && |end.orders| == |o.orders| + 1 && end.orders[..|o.orders|] == o.orders
              && IsFor(end.orders[|o.orders|].lines, wanted.value)
              && end.orders[|o.orders|] == Row(o.tiers[wanted.value[0].ticketId].event, end.orders[|o.orders|].lines,
                                               PendingPayment, now + (if p.confirm then p.holdFor else p.cartFor),
                                               p.confirm, None, None)
              && CountersMove(o, end, end.orders[|o.orders|].lines, 1, 0)
              && ChairsBecome(o, end, end.orders[|o.orders|].lines, Held, Some(|o.orders|))
              && end.admissions == o.admissions
            else end == o
  {
    var wanted := Normalized(p.items);
    if wanted.Ok? {
      NormalizedIsTidy(p.items);
      TakeableIs(o, wanted.value);
      if Takeable(o, wanted.value) && p.formIsValid {
        ExpandedIsFor(wanted.value);
        NewRowIs(o, wanted.value, p, now);
        PlacingIs(o, NewRow(o, wanted.value, p, now));
      }
    }
  }

  lemma {:induction false} NewRowIs(o: Office, wanted: seq<DraftItem>, p: Purchase, now: int)
    requires Takeable(o, wanted) && p.formIsValid
    ensures NewRow(o, wanted, p, now)
            == Row(o.tiers[wanted[0].ticketId].event, Expanded(wanted), PendingPayment,
                   now + (if p.confirm then p.holdFor else p.cartFor), p.confirm, None, None)
  {
    var row := PendingRow(o.tiers[wanted[0].ticketId].event, Expanded(wanted), now + if p.confirm then p.holdFor else p.cartFor);
    if p.confirm {
      PressedAtOnce(row, p.holdFor, now);
    } else {
      assert NewRow(o, wanted, p, now) == row;
    }
  }

  lemma {:induction false} PressedAtOnce(row: Row, holdFor: int, now: int)
    requires row.status.PendingPayment? && !row.confirmed && row.holdExpiresAt == now + holdFor
    ensures Confirmation(row, true, holdFor, now).0 == row.(confirmed := true)
  {
  }

  lemma {:induction false} PlacingIs(o: Office, row: Row)
    requires Inv(o) && row.status.PendingPayment?
    ensures var end := Placed(o, row);
            && end.orders == o.orders + [row]
            && CountersMove(o, end, row.lines, 1, 0)
            && ChairsBecome(o, end, row.lines, Held, Some(|o.orders|))
            && end.admissions == o.admissions
  {
    forall c | c in o.chairs
      ensures o.chairs[c].order != Some(|o.orders|)
    {
      assert ChairFits(o.orders, c, o.chairs[c]);
    }
  }
}
