/**
 The box office as the code runs it: rows in tables, one conditional statement at a time, loops
 over the lines of an order, and a rollback when a line is lost
 (usecases/checkout/service.go, usecases/checkout/seating.go, usecases/payment/service.go,
 infra/repositories/{ticket,seating,admission,order}).

 Each transaction is proved to compute the step of `Sales` that it stands for.
 */
module BoxOffice {
  import opened Results
  import opened Text
  import opened Orders
  import opened Tickets
  import opened Basket
  import opened Sales
  import opened SalesInvariant
  import opened SalesSteps
  import opened StartMoves
  import opened StockMoves

  datatype SaleError =
    | BadBasket(basket: BasketError)
    | BadTicket(ticket: TicketError)
    | BadOrder(order: OrderError)
    | ErrMultipleEvents
    | ErrChooseSeats
    | ErrSeatsUnavailable(seats: seq<string>)
    | ErrBadForm
    | ErrNoSuchOrder

  class Database {
    var tiers: map<string, Tier>
    var chairs: map<string, Chair>
    var orders: seq<Row>
    var admissions: seq<Admission>

    constructor (opening: Office)
      requires Opening(opening)
      ensures Rows() == opening && Valid()
    {
      tiers, chairs, orders, admissions := opening.tiers, opening.chairs, opening.orders, opening.admissions;
    }

    function Rows(): Office
      reads this
    {
      Office(tiers, chairs, orders, admissions)
    }

    ghost predicate Valid()
      reads this
    {
      Inv(Rows())
    }

    method Rollback(saved: Office)
      modifies this
      ensures Rows() == saved
    {
      tiers, chairs, orders, admissions := saved.tiers, saved.chairs, saved.orders, saved.admissions;
    }

    // ------------------------------------------------- one statement each

    method Reserve(t: string, n: int) returns (r: Result<bool, TicketError>)
      modifies this`tiers
      ensures r == if n <= 0 then Err(ErrInvalidQuantity) else Ok(t in old(tiers) && old(tiers)[t].CanTake(n))
      ensures tiers == if r == Ok(true) then old(tiers)[t := old(tiers)[t].Moved(Take, n)] else old(tiers)
      ensures r == Ok(true) <==>
                && 0 < n && t in old(tiers) && old(tiers)[t].status.OnSale?
                && n <= old(tiers)[t].quantity - old(tiers)[t].sold - old(tiers)[t].reserved
                && (old(tiers)[t].area.Some? ==> n <= old(tiers)[t].area.value - old(tiers)[t].sold - old(tiers)[t].reserved)
      ensures r == Ok(true) ==> tiers[t] == old(tiers)[t].(reserved := old(tiers)[t].reserved + n)
    {
      if n <= 0 {
        return Err(ErrInvalidQuantity);
      }
      if t in tiers && tiers[t].CanTake(n) {
        tiers := tiers[t := tiers[t].(reserved := tiers[t].reserved + n)];
        return Ok(true);
      }
      return Ok(false);
    }

    /** `Release`, `Commit` and `ReleaseSold`, by the counters they move. */
    method Shift(move: Move, t: string, n: int) returns (error: Option<TicketError>)
      requires !move.Take?
      modifies this`tiers
      ensures error.None? <==> n > 0 && t in old(tiers) && old(tiers)[t].Allows(move, n)
      ensures tiers == if error.None? then old(tiers)[t := old(tiers)[t].Moved(move, n)] else old(tiers)
      ensures error.None? <==>
                0 < n && t in old(tiers) && n <= if move.Unsell? then old(tiers)[t].sold else old(tiers)[t].reserved
      ensures error.None? ==>
                && tiers[t].reserved == old(tiers)[t].reserved - (if move.Unsell? then 0 else n)
                && tiers[t].sold == old(tiers)[t].sold + (if move.Sell? then n else if move.Unsell? then -n else 0)
                && tiers[t].quantity == old(tiers)[t].quantity && tiers[t].status == old(tiers)[t].status
                && tiers[t].event == old(tiers)[t].event && tiers[t].area == old(tiers)[t].area
    {
      if n <= 0 {
        return Some(ErrInvalidQuantity);
      }
      if t !in tiers {
        return Some(ErrNoMatchingHold);
      }
      var tier := tiers[t];
      match move {
        case GiveBack =>
          if tier.reserved < n {
            return Some(ErrNoMatchingHold);
          }
          tiers := tiers[t := tier.(reserved := tier.reserved - n)];
        case Sell =>
          if tier.reserved < n {
            return Some(ErrNoMatchingHold);
          }
          tiers := tiers[t := tier.(reserved := tier.reserved - n, sold := tier.sold + n)];
        case Unsell =>
          if tier.sold < n {
            return Some(ErrNoMatchingHold);
          }
          tiers := tiers[t := tier.(sold := tier.sold - n)];
      }
      return None;
    }

    /** Takes whichever of the chairs are free, and names the others. */
    method Claim(event: string, tier: string, ids: seq<string>, i: nat) returns (unavailable: seq<string>)
      modifies this`chairs
      ensures chairs == Claimed(old(chairs), event, tier, ids, i)
      ensures chairs.Keys == old(chairs).Keys
      ensures forall c | c in chairs ::
                chairs[c] == if c in ids && c !in unavailable then Chair(event, tier, Held, Some(i)) else old(chairs)[c]
      ensures unavailable == [] <==> forall k | 0 <= k < |ids| :: Claimable(old(chairs), event, tier, ids[k])
      ensures forall id :: id in unavailable <==> id in ids && !Claimable(old(chairs), event, tier, id)
    {
      var before := chairs;
      chairs := map c | c in before ::
        if before[c].event == event && before[c].tier == tier && before[c].status.Available? && c in ids
        then before[c].(status := Held, order := Some(i))
        else before[c];
      unavailable := [];
      for k := 0 to |ids|
        invariant unavailable == [] <==> forall j | 0 <= j < k :: Claimable(before, event, tier, ids[j])
        invariant forall id :: id in unavailable <==> id in ids[..k] && !Claimable(before, event, tier, id)
      {
        if !(ids[k] in before && chairs[ids[k]] != before[ids[k]]) {
          unavailable := unavailable + [ids[k]];
        }
      }
      TakeAll(ids);
    }

    method ReleaseForOrder(i: nat)
      modifies this`chairs
      ensures chairs == Freed(old(chairs), i, Held)
    {
      chairs := map c | c in chairs ::
        if chairs[c].order == Some(i) && chairs[c].status == Held
        then chairs[c].(status := Available, order := None) else chairs[c];
    }

    method CommitForOrder(i: nat)
      modifies this`chairs
      ensures chairs == Committed(old(chairs), i)
    {
      chairs := map c | c in chairs ::
        if chairs[c].order == Some(i) && chairs[c].status == Held then chairs[c].(status := Taken) else chairs[c];
    }

    method ReleaseSoldForOrder(i: nat)
      modifies this`chairs
      ensures chairs == Freed(old(chairs), i, Taken)
    {
      chairs := map c | c in chairs ::
        if chairs[c].order == Some(i) && chairs[c].status == Taken
        then chairs[c].(status := Available, order := None) else chairs[c];
    }

    /** `Block` and `Unblock`: one conditional update over the ids given. */
    method Mark(event: string, ids: seq<string>, from: ChairStatus, to: ChairStatus)
      modifies this`chairs
      ensures chairs == Marked(old(chairs), event, ids, from, to)
    {
      chairs := map c | c in chairs ::
        if chairs[c].event == event && chairs[c].status == from && c in ids then chairs[c].(status := to) else chairs[c];
    }

    method Block(event: string, ids: seq<string>)
      requires Valid()
      modifies this`chairs
      ensures Rows() == Withheld(old(Rows()), event, ids) && Valid()
    {
      var wanted := NormalizeSeatIDs(ids);
      WithholdingKeepsInv(Rows(), event, ids);
      MarkingIsWithholding(Rows(), event, ids);
      Mark(event, wanted, Available, Blocked);
    }

    method Unblock(event: string, ids: seq<string>)
      requires Valid()
      modifies this`chairs
      ensures Rows() == Restored(old(Rows()), event, ids) && Valid()
    {
      var wanted := NormalizeSeatIDs(ids);
      RestoringKeepsInv(Rows(), event, ids);
      MarkingIsRestoring(Rows(), event, ids);
      Mark(event, wanted, Blocked, Available);
    }

    // -------------------------------------------------------------- admissions

    /** Mints one admission per ticket, numbered on across the lines of a tier. */
    method IssueForOrder(i: nat, lines: seq<Line>)
      requires forall k | 0 <= k < |lines| :: lines[k].quantity >= 1
      modifies this`admissions
      ensures admissions == IssuedFor(old(admissions), i, lines)
    {
      if TicketsIn(lines) == 0 {
        NothingToMint(lines);
        assert Fresh(i, Minted(lines)) == [] && admissions + [] == admissions;
        return;
      }
      if Given(admissions, i) != [] {
        return;
      }
      var issued := Mint(i, lines);
      admissions := admissions + issued;
    }

    method VoidForOrder(i: nat, now: int)
      modifies this`admissions
      ensures admissions == VoidedFor(old(admissions), i, now)
      ensures |admissions| == |old(admissions)|
      ensures forall a | 0 <= a < |admissions| ::
                var was := old(admissions)[a];
                admissions[a] == if was.order == i && !was.status.Void?
                                 then Admission(i, was.credential, Void, was.admittedAt, Some(now)) else was
    {
      admissions := seq(|admissions|, k requires 0 <= k < |admissions| reads this =>
        if admissions[k].order == i && !admissions[k].status.Void?
        then admissions[k].(status := Void, voidedAt := Some(now)) else admissions[k]);
    }

    /** Two turnstiles, one ticket: the statement lets exactly one of them have it. */
    method Admit(a: nat, now: int) returns (admitted: bool)
      requires Valid()
      modifies this`admissions
      ensures admitted <==> a < |old(admissions)| && old(admissions)[a].status.Issued?
      ensures Rows() == Scanned(old(Rows()), a, now) && Valid()
      ensures admitted ==> admissions[a].status.Admitted? && admissions[a].admittedAt == Some(now)
    {
      ScanningKeepsInv(Rows(), a, now);
      if a < |admissions| && admissions[a].status.Issued? {
        admissions := admissions[a := admissions[a].(status := Admitted, admittedAt := Some(now))];
        return true;
      }
      return false;
    }

    // ---------------------------------------------- loops over an order's lines

    /** `Release`, `Commit` or `ReleaseSold` for every line, in the order the lines are kept. */
    method ShiftAll(move: Move, lines: seq<Line>) returns (error: Option<TicketError>)
      requires !move.Take? && Positive(lines) && Covers(tiers, move, lines)
      modifies this`tiers
      ensures error.None? && tiers == MovedAll(old(tiers), move, lines)
    {
      var start := tiers;
      MovedNothing(start, move);
      for k := 0 to |lines|
        invariant tiers == MovedAll(start, move, lines[..k])
      {
        MoveIsAllowed(start, move, lines, k);
        MovedNext(start, move, lines, k);
        error := Shift(move, lines[k].tier, lines[k].quantity);
        if error.Some? {
          return;
        }
      }
      TakeAll(lines);
      return None;
    }

    /** Gives back an order's held stock, and its held chairs with it. */
    method ReleaseAll(i: nat, lines: seq<Line>) returns (error: Option<TicketError>)
      requires Positive(lines) && Covers(tiers, GiveBack, lines)
      modifies this`tiers, this`chairs
      ensures error.None?
      ensures tiers == MovedAll(old(tiers), GiveBack, lines) && chairs == Freed(old(chairs), i, Held)
    {
      error := ShiftAll(GiveBack, lines);
      if error.Some? {
        return;
      }
      ReleaseForOrder(i);
    }

    // ------------------------------------------------------- a payment settles

    /** One tier's seats, asked for again. */
    method ReclaimTier(ghost before: Office, ghost asked: set<string>, ghost names: seq<string>, ghost k: nat,
                       i: nat, event: string, t: string, ids: seq<string>)
      returns (seated: bool)
      requires Fitting(before) && i < |before.orders| && event == before.orders[i].event
      requires Distinct(names) && k < |names| && t == names[k] && ids == SeatList(before.orders[i].lines, t)
      requires AskedAndFree(before, before.orders[i], asked, names[..k])
      requires chairs == HeldFrom(before.chairs, asked, i)
      modifies this`chairs
      ensures chairs == HeldFrom(before.chairs, asked + Elems(ids), i)
      ensures seated ==> AskedAndFree(before, before.orders[i], asked + Elems(ids), names[..k + 1])
      ensures !seated ==> !AllFree(before.chairs, event, before.orders[i].lines)
    {
      SeatsFitTheirTier(before, i, t);
      ClaimExtends(before.chairs, asked, event, t, ids, i);
      ClaimedWhatIsFree(before, i, asked, names, k);
      var unavailable := Claim(event, t, ids, i);
      return unavailable == [];
    }

    /** Takes back exactly the chairs an order names, tier by tier, or none of them. */
    method ReclaimSeats(i: nat) returns (seated: bool)
      requires Valid() && i < |orders| && !orders[i].status.HoldsStock()
      modifies this`chairs
      ensures seated == AllFree(old(chairs), orders[i].event, orders[i].lines)
      ensures chairs == if seated then HeldFrom(old(chairs), Seats(orders[i].lines), i) else old(chairs)
    {
      var row := orders[i];
      ghost var before := Rows();
      OnlyPendingHolds(before, i);
      var names, byTier := GroupSeats(row.lines);
      HeldNothing(before.chairs, i);
      for k := 0 to |names|
        invariant chairs == HeldFrom(before.chairs, SeatsUnder(row.lines, names[..k]), i)
        invariant AskedAndFree(before, row, SeatsUnder(row.lines, names[..k]), names[..k])
      {
        SeatsUnderNext(row.lines, names, k);
        var claimed := ReclaimTier(before, SeatsUnder(row.lines, names[..k]), names, k, i, row.event, names[k], byTier[names[k]]);
        if !claimed {
          ReleaseForOrder(i);
          FreedBack(before.chairs, SeatsUnder(row.lines, names[..k + 1]), i);
          return false;
        }
      }
      TakeAll(names);
      assert RowFits(before.tiers, before.chairs, row);
      AllSeatsAsked(before, row, names);
      return true;
    }

    /** Takes every line's stock, or gives back what it took of the ones before. */
    method ReserveLines(lines: seq<Line>) returns (reserved: bool)
      requires Positive(lines)
      requires forall k | 0 <= k < |lines| :: lines[k].tier in tiers && tiers[lines[k].tier].reserved >= 0
      modifies this`tiers
      ensures reserved == Room(old(tiers), lines)
      ensures tiers == if reserved then MovedAll(old(tiers), Take, lines) else old(tiers)
    {
      var start := tiers;
      MovedNothing(start, Take);
      for k := 0 to |lines|
        invariant tiers == MovedAll(start, Take, lines[..k])
        invariant RoomSoFar(start, lines, k)
      {
        var r := Reserve(lines[k].tier, lines[k].quantity);
        if r != Ok(true) {
          NoRoomForOneMore(start, lines, k);
          TakenIsCovered(start, GiveBack, lines[..k]);
          var _ := ShiftAll(GiveBack, lines[..k]);
          MovedBack(start, lines[..k]);
          return false;
        }
        RoomForOneMore(start, lines, k);
        MovedNext(start, Take, lines, k);
      }
      RoomForAll(start, lines);
      TakeAll(lines);
      return true;
    }

    /** Takes stock back for a late payment: all of it, chairs first, or none. */
    method ReserveAll(i: nat) returns (reserved: bool)
      requires Valid() && i < |orders| && !orders[i].status.HoldsStock()
      modifies this`tiers, this`chairs
      ensures reserved == CanRetake(old(Rows()), orders[i])
      ensures if reserved
              then && tiers == MovedAll(old(tiers), Take, orders[i].lines)
                   && chairs == HeldFrom(old(chairs), Seats(orders[i].lines), i)
              else tiers == old(tiers) && chairs == old(chairs)
    {
      ghost var before := Rows();
      QuantitiesOf(before, i);
      LinesAreOnSale(before, i);
      OnlyPendingHolds(before, i);
      reserved := ReclaimSeats(i);
      if reserved {
        reserved := ReserveLines(orders[i].lines);
        if !reserved {
          ReleaseForOrder(i);
          FreedBack(before.chairs, Seats(orders[i].lines), i);
        }
      }
    }

    /** The stock is the order's own hold, or was just taken back for it. */
    ghost predicate ReadyToSell(before: Office, i: nat, late: bool)
      reads this
    {
      && Inv(before) && i < |before.orders|
      && var row := before.orders[i];
         if late then
           && !row.status.HoldsStock() && !row.status.Paid? && AllFree(before.chairs, row.event, row.lines)
           && tiers == MovedAll(before.tiers, Take, row.lines) && chairs == HeldFrom(before.chairs, Seats(row.lines), i)
         else row.status.HoldsStock() && tiers == before.tiers && chairs == before.chairs
    }

    /** Stock, chairs and tickets of an order that has just been paid. */
    method Fulfil(ghost before: Office, i: nat, late: bool, now: int) returns (error: Option<TicketError>)
      requires ReadyToSell(before, i, late) && orders == before.orders && admissions == before.admissions
      modifies this`tiers, this`chairs, this`admissions
      ensures error.None?
      ensures var turned := Turned(before, i, Paid, now);
              tiers == turned.tiers && chairs == turned.chairs && admissions == turned.admissions
    {
      var lines := orders[i].lines;
      ghost var was, row := before.orders[i], before.orders[i].At(Paid, now);
      QuantitiesOf(before, i);
      if late {
        LinesAreOnSale(before, i);
        TakenIsCovered(before.tiers, Sell, lines);
        RetakingIsRetallying(before.tiers, was, row);
        RetakingIsReseating(before, i, row);
      } else {
        OwnStockIsCovered(before, i, Sell);
        MovingIsRetallying(before.tiers, was, row);
        CommittingIsReseating(before, i, row);
      }
      error := ShiftAll(Sell, lines);
      if error.Some? {
        return;
      }
      CommitForOrder(i);
      IssueForOrder(i, lines);
    }

    /** Stock and chairs of a pending order that has just been closed unpaid. */
    method LetGo(ghost before: Office, i: nat, lines: seq<Line>, ghost next: Status, now: int)
      returns (error: Option<TicketError>)
      requires Inv(before) && i < |before.orders| && before.orders[i].status.HoldsStock()
      requires lines == before.orders[i].lines && !next.HoldsStock() && !next.Paid?
      requires tiers == before.tiers && chairs == before.chairs
      modifies this`tiers, this`chairs
      ensures error.None?
      ensures var row := before.orders[i].At(next, now);
              tiers == Retallied(before.tiers, before.orders[i], row) && chairs == Reseated(before.chairs, i, row)
    {
      ghost var row := before.orders[i].At(next, now);
      QuantitiesOf(before, i);
      OwnStockIsCovered(before, i, GiveBack);
      MovingIsRetallying(before.tiers, before.orders[i], row);
      FreeingIsReseating(before, i, Held, row);
      error := ReleaseAll(i, lines);
    }

    /** Stock, chairs and tickets of an order whose money has just gone back. */
    method TakeBack(ghost before: Office, i: nat, wasPaid: bool, now: int) returns (error: Option<TicketError>)
      requires Inv(before) && i < |before.orders| && Rows() == before
      requires !before.orders[i].status.HoldsStock() && wasPaid == before.orders[i].status.Paid?
      modifies this`tiers, this`chairs, this`admissions
      ensures error.None?
      ensures var turned := Turned(before, i, Refunded, now);
              tiers == turned.tiers && chairs == turned.chairs && admissions == turned.admissions
    {
      ghost var was, row := before.orders[i], before.orders[i].At(Refunded, now);
      MovingIsRetallying(before.tiers, was, row);
      if wasPaid {
        QuantitiesOf(before, i);
        OwnStockIsCovered(before, i, Unsell);
        FreeingIsReseating(before, i, Taken, row);
        error := ShiftAll(Unsell, orders[i].lines);
        if error.Some? {
          return;
        }
        ReleaseSoldForOrder(i);
      } else {
        NothingToReseat(before, i, row);
        error := None;
      }
      VoidForOrder(i, now);
    }

    /** Stock taken back for a payment that turns out to move nothing goes back where it was. */
    method PutBack(ghost before: Office, i: nat, lines: seq<Line>) returns (error: Option<TicketError>)
      requires Inv(before) && i < |before.orders| && !before.orders[i].status.HoldsStock()
      requires lines == before.orders[i].lines
      requires tiers == MovedAll(before.tiers, Take, lines) && chairs == HeldFrom(before.chairs, Seats(lines), i)
      modifies this`tiers, this`chairs
      ensures error.None? && tiers == before.tiers && chairs == before.chairs
    {
      QuantitiesOf(before, i);
      LinesAreOnSale(before, i);
      TakenIsCovered(before.tiers, GiveBack, lines);
      MovedBack(before.tiers, lines);
      OnlyPendingHolds(before, i);
      FreedBack(before.chairs, Seats(lines), i);
      error := ReleaseAll(i, lines);
    }

    /** What an effective change of status does to everything but the order's own row. */
    method MoveStock(ghost before: Office, i: nat, previous: Status, next: Status, late: bool, now: int)
      returns (error: Option<TicketError>)
      requires Inv(before) && i < |before.orders| && orders == before.orders && admissions == before.admissions
      requires previous == before.orders[i].status && CanTransition(previous, next)
      requires next.RefundRequired? ==> !previous.HoldsStock()
      requires if next.Paid? then ReadyToSell(before, i, late) else tiers == before.tiers && chairs == before.chairs
      modifies this`tiers, this`chairs, this`admissions
      ensures error.None?
      ensures Rows().(orders := orders[i := orders[i].At(next, now)]) == Turned(before, i, next, now)
    {
      match next {
        case Paid =>
          error := Fulfil(before, i, late, now);
        case RefundRequired =>
          // Whoever else has the stock keeps it.
          ghost var row := before.orders[i].At(next, now);
          MovingIsRetallying(before.tiers, before.orders[i], row);
          NothingToReseat(before, i, row);
          error := None;
        case Expired | Failed | Cancelled =>
          error := LetGo(before, i, orders[i].lines, next, now);
        case Refunded =>
          error := TakeBack(before, i, previous.Paid?, now);
      }
    }

    // ------------------------------------------------------------ transactions

    /** The status a delivery asks for, the stock of a late payment being taken back first or a refund owed. */
    method Judge(i: nat, heard: Status) returns (next: Status, late: bool)
      requires Valid() && i < |orders|
      modifies this`tiers, this`chairs
      ensures var row := orders[i];
              && late == (heard.Paid? && !row.status.HoldsStock() && CanRetake(old(Rows()), row))
              && next == (if heard.Paid? && !row.status.HoldsStock() && !late then RefundRequired else heard)
              && tiers == (if late then MovedAll(old(tiers), Take, row.lines) else old(tiers))
              && chairs == (if late then HeldFrom(old(chairs), Seats(row.lines), i) else old(chairs))
    {
      next, late := heard, false;
      if heard.Paid? && !orders[i].status.HoldsStock() {
        late := ReserveAll(i);
        if !late {
          next := RefundRequired;
        }
      }
    }

    /** A provider's news about one order, applied once however often it is delivered. */
    method Settle(i: nat, charge: ChargeStatus, now: int) returns (error: Option<SaleError>)
      requires Valid()
      modifies this
      ensures error.Some? <==> i >= |old(orders)|
      ensures Rows() == Settled(old(Rows()), i, charge, now) && Valid()
    {
      ghost var before := Rows();
      SettlingKeepsInv(before, i, charge, now);
      if i >= |orders| {
        return Some(ErrNoSuchOrder);
      }
      var heard := StatusFor(charge);
      if heard.None? {
        return None;
      }
      var next, late := Judge(i, heard.value);
      var item := new Order(orders[i], now);
      var previous := item.status;
      var changed := item.Apply(next, now);
      if changed != Ok(true) {
        if late {
          var _ := PutBack(before, i, orders[i].lines);
        }
        return None;
      }
      // No statement inside refuses: the guards hold in every reachable state.
      var _ := MoveStock(before, i, previous, next, late, now);
      orders := orders[i := item.Stored()];
      return None;
    }

    /** Writes a pending order back closed and gives back all it held. */
    method CloseOut(i: nat, closed: Row, ghost next: Status, now: int) returns (error: Option<TicketError>)
      requires Valid() && i < |orders| && orders[i].status.HoldsStock()
      requires closed == orders[i].At(next, now) && (next.Cancelled? || next.Expired?)
      modifies this
      ensures error.None? && Rows() == Turned(old(Rows()), i, next, now)
    {
      ghost var before := Rows();
      orders := orders[i := closed];
      error := LetGo(before, i, closed.lines, next, now);
    }

    /** A buyer gives up; giving up twice succeeds and changes nothing. */
    method CancelOrder(i: nat, now: int) returns (error: Option<SaleError>)
      requires Valid()
      modifies this
      ensures Rows() == Applied(old(Rows()), i, Cancelled, now) && Valid()
      ensures error.None? <==> i < |old(orders)| && old(orders)[i].status in {PendingPayment, Cancelled}
    {
      ApplyingKeepsInv(Rows(), i, Cancelled, now);
      if i >= |orders| {
        return Some(ErrNoSuchOrder);
      }
      var item := new Order(orders[i], now);
      var changed := item.Apply(Cancelled, now);
      if changed.Err? {
        return Some(BadOrder(changed.error));
      }
      if changed.value {
        var _ := CloseOut(i, item.Stored(), Cancelled, now);
      }
      return None;
    }

    /** The job scheduled at a hold's end: nothing happens if the hold still stands or is gone. */
    method ExpireHold(i: nat, now: int) returns (error: Option<SaleError>)
      requires Valid()
      modifies this
      ensures Rows() == Lapsed(old(Rows()), i, now) && Valid()
      ensures error.Some? <==> i >= |old(orders)|
    {
      ApplyingKeepsInv(Rows(), i, Expired, now);
      if i >= |orders| {
        return Some(ErrNoSuchOrder);
      }
      if !orders[i].HoldLapsed(now) {
        return None;
      }
      var item := new Order(orders[i], now);
      var changed := item.Apply(Expired, now);
      if changed != Ok(true) {
        return None;
      }
      var _ := CloseOut(i, item.Stored(), Expired, now);
      return None;
    }

    /** Flips the lapsed orders among the rows this sweep locked, and names those it flipped. */
    method ClaimExpired(picks: seq<nat>, now: int) returns (expired: seq<nat>)
      modifies this`orders
      ensures orders == Swept(old(Rows()), picks, now).orders
      ensures EachLapses(old(Rows()), expired, now)
      ensures Swept(old(Rows()), expired, now) == Swept(old(Rows()), picks, now)
    {
      ghost var before := Rows();
      expired := [];
      for k := 0 to |picks|
        invariant orders == Swept(before, picks[..k], now).orders
        invariant EachLapses(before, expired, now)
        invariant Swept(before, expired, now) == Swept(before, picks[..k], now)
      {
        var p := picks[k];
        assert picks[..k + 1][..k] == picks[..k];
        if p < |orders| && orders[p].HoldLapsed(now) {
          assert (expired + [p])[..|expired|] == expired;
          orders := orders[p := orders[p].At(Expired, now)];
          expired := expired + [p];
        }
      }
      TakeAll(picks);
    }

    /** The sweep: claim, then release what was claimed. */
    method ExpireHolds(picks: seq<nat>, now: int) returns (released: nat)
      requires Valid()
      modifies this
      ensures Rows() == Swept(old(Rows()), picks, now) && Valid()
    {
      ghost var before := Rows();
      SweepingKeepsInv(before, picks, now);
      var expired := ClaimExpired(picks, now);
      released := 0;
      for k := 0 to |expired|
        invariant orders == Swept(before, picks, now).orders && admissions == before.admissions
        invariant tiers == Swept(before, expired[..k], now).tiers && chairs == Swept(before, expired[..k], now).chairs
      {
        ghost var then_ := Swept(before, expired[..k], now);
        SweptNext(before, expired, now, k);
        SweepingKeepsInv(before, expired[..k], now);
        SweepingKeepsLines(before, expired[..k], now, expired[k]);
        SweepingKeepsLines(before, picks, now, expired[k]);
        var _ := LetGo(then_, expired[k], orders[expired[k]].lines, Expired, now);
        released := released + 1;
      }
      TakeAll(expired);
      SweepingKeepsAdmissions(before, picks, now);
    }

    /** The details form: the first press extends the window, the next ones only correct details. */
    method ConfirmOrder(i: nat, formIsValid: bool, holdFor: int, now: int) returns (r: Result<bool, SaleError>)
      requires Valid()
      modifies this
      ensures Rows() == Pressed(old(Rows()), i, formIsValid, holdFor, now) && Valid()
      ensures r.Ok? <==>
                && i < |old(orders)| && old(orders)[i].status.PendingPayment? && now < old(orders)[i].holdExpiresAt
                && formIsValid
      ensures r.Ok? ==> r.value == !old(orders)[i].confirmed
    {
      PressingKeepsInv(Rows(), i, formIsValid, holdFor, now);
      if i >= |orders| {
        return Err(ErrNoSuchOrder);
      }
      if orders[i].HoldLapsed(now) {
        return Err(BadOrder(ErrHoldExpired));
      }
      var item := new Order(orders[i], now);
      var pressed := item.Confirm(formIsValid, holdFor, now);
      if pressed.Err? {
        return Err(BadOrder(pressed.error));
      }
      orders := orders[i := item.Stored()];
      return Ok(pressed.value);
    }

    /** An operator's form, decided on the copy that was read and written over whatever is there now. */
    method EditTier(t: string, seen: Tier, draft: TierDraft) returns (error: Option<TicketError>)
      requires Valid()
      modifies this`tiers
      ensures Rows() == Edited(old(Rows()), t, seen, draft) && Valid()
      ensures error.None? ==> t in tiers && tiers[t].quantity == draft.quantity
      ensures error.Some? ==> tiers == old(tiers)
    {
      EditingKeepsInv(Rows(), t, seen, draft);
      error := WriteEdit(t, seen, draft);
    }

    method WriteEdit(t: string, seen: Tier, draft: TierDraft) returns (error: Option<TicketError>)
      modifies this`tiers
      ensures Rows() == Edited(old(Rows()), t, seen, draft)
      ensures error.None? ==> t in tiers && tiers[t].quantity == draft.quantity
      ensures error.Some? ==> tiers == old(tiers)
    {
      var quantity, status;
      error, quantity, status := DecideEdit(seen, draft);
      if error.None? {
        error := UpdateTier(t, quantity, status);
      }
    }

    method ChangeTierStatus(t: string, seen: Tier, next: TierStatus) returns (error: Option<TicketError>)
      requires Valid()
      modifies this`tiers
      ensures Rows() == Relisted(old(Rows()), t, seen, next) && Valid()
      ensures error.None? ==> t in tiers && tiers[t].quantity == seen.quantity && tiers[t].status == next
      ensures error.Some? ==> tiers == old(tiers)
    {
      WritingKeepsInv(Rows(), t, seen.quantity, next);
      var ticket := new Ticket(seen, "", 0);
      error := ticket.ChangeStatus(next);
      if error.None? {
        error := UpdateTier(t, ticket.quantity, ticket.status);
      }
    }

    /** Writes the editable columns; the stored counters stay, and the table refuses what they do not fit. */
    method UpdateTier(t: string, quantity: int, status: TierStatus) returns (error: Option<TicketError>)
      modifies this`tiers
      ensures Rows() == Written(old(Rows()), t, quantity, status)
      ensures error.None? <==>
                && t in old(tiers) && 0 <= old(tiers)[t].sold && 0 <= old(tiers)[t].reserved
                && old(tiers)[t].sold + old(tiers)[t].reserved <= quantity
      ensures tiers == if error.None? then old(tiers)[t := old(tiers)[t].(quantity := quantity, status := status)] else old(tiers)
    {
      if t !in tiers {
        return Some(ErrNotFound);
      }
      var tier := tiers[t].(quantity := quantity, status := status);
      if tier.sold < 0 || tier.reserved < 0 || tier.sold + tier.reserved > tier.quantity {
        return Some(ErrQuantityBelowSold);
      }
      tiers := tiers[t := tier];
      return None;
    }

    /** Tickets for a paid order that somehow has none. */
    method Backfill(i: nat)
      requires Valid()
      modifies this`admissions
      ensures Rows() == Reissued(old(Rows()), i) && Valid()
    {
      ReissuingChangesNothing(Rows(), i);
      if i < |orders| && orders[i].status.Paid? {
        QuantitiesOf(Rows(), i);
        IssueForOrder(i, orders[i].lines);
      }
    }

    // ----------------------------------------------------------------- checkout

    /** Reads every tier before anything is reserved: all there, of one event, and on sale. */
    method ReadTiers(wanted: seq<DraftItem>) returns (error: Option<SaleError>, event: string)
      requires wanted != [] && forall t | t in tiers :: tiers[t].event != ""
      ensures error.None? <==>
                && wanted[0].ticketId in tiers
                && forall k | 0 <= k < |wanted| :: OnOffer(tiers, tiers[wanted[0].ticketId].event, wanted[k])
      ensures error.None? ==> event == tiers[wanted[0].ticketId].event
    {
      event := "";
      for k := 0 to |wanted|
        invariant event == "" <==> k == 0
        invariant k > 0 ==> wanted[0].ticketId in tiers && event == tiers[wanted[0].ticketId].event
        invariant forall j | 0 <= j < k :: OnOffer(tiers, event, wanted[j])
      {
        var t := wanted[k].ticketId;
        if t !in tiers {
          return Some(BadTicket(ErrNotFound)), event;
        }
        if event == "" {
          event := tiers[t].event;
        } else if tiers[t].event != event {
          return Some(ErrMultipleEvents), event;
        }
        var refusal := CanReserve(tiers[t], wanted[k].quantity);
        if refusal.Some? {
          return Some(BadTicket(refusal.value)), event;
        }
      }
      return None, event;
    }

    /** A tier that has chairs must be bought by naming them; leaving them out is no way around it. */
    method RequireChairs(wanted: seq<DraftItem>, event: string) returns (error: Option<SaleError>)
      ensures error.None? <==> forall k | 0 <= k < |wanted| :: ChoosesChairs(chairs, event, wanted[k])
    {
      for k := 0 to |wanted|
        invariant forall j | 0 <= j < k :: ChoosesChairs(chairs, event, wanted[j])
      {
        if HasChairs(chairs, event, wanted[k].ticketId) && !wanted[k].Seated() {
          assert !ChoosesChairs(chairs, event, wanted[k]);
          return Some(ErrChooseSeats);
        }
      }
      return None;
    }

    /** Chairs, then the counter, of one basket line. */
    method TakeItem(d: DraftItem, event: string, i: nat) returns (error: Option<SaleError>)
      requires d.quantity > 0
      modifies this`tiers, this`chairs
      ensures error.None? <==> AllClaimable(old(chairs), event, d) && Gives(old(tiers), d)
      ensures error.None? ==>
                && tiers == old(tiers)[d.ticketId := old(tiers)[d.ticketId].Moved(Take, d.quantity)]
                && chairs == Claimed(old(chairs), event, d.ticketId, d.seatIds, i)
    {
      ClaimedNone(chairs, event, d.ticketId, i);
      if d.Seated() {
        var unavailable := Claim(event, d.ticketId, d.seatIds, i);
        if unavailable != [] {
          return Some(ErrSeatsUnavailable(unavailable));
        }
      }
      var r := Reserve(d.ticketId, d.quantity);
      if r != Ok(true) {
        return Some(BadTicket(ErrInsufficientStock));
      }
      return None;
    }

    /** Takes every line, in tier order, or stops at the first that is lost. */
    method TakeBasket(wanted: seq<DraftItem>, event: string) returns (error: Option<SaleError>)
      requires Tidy(wanted) && Offerable(Rows(), event, wanted)
      modifies this`tiers, this`chairs
      ensures error.None? <==>
                AllFree(old(chairs), event, Expanded(wanted)) && Room(old(tiers), Expanded(wanted))
      ensures error.None? ==>
                && tiers == MovedAll(old(tiers), Take, Expanded(wanted))
                && chairs == HeldFrom(old(chairs), Seats(Expanded(wanted)), |orders|)
    {
      ghost var before := Rows();
      TookNothing(before, event, wanted, |orders|);
      for k := 0 to |wanted|
        invariant TookSoFar(before, event, wanted, k, |orders|, tiers, chairs)
      {
        assert OnOffer(before.tiers, event, wanted[k]);
        NextIsTakeable(before, event, wanted, k, |orders|, tiers, chairs);
        ghost var tiers', chairs' := tiers, chairs;
        error := TakeItem(wanted[k], event, |orders|);
        if error.Some? {
          StuckAt(before, event, wanted, k);
          return;
        }
        TookNext(before, event, wanted, k, |orders|, tiers', chairs');
      }
      TookAll(before, event, wanted, |orders|, tiers, chairs);
      return None;
    }

    /** One row per chair now that the claim said which, and one per counted tier. */
    static method ExpandLines(wanted: seq<DraftItem>) returns (lines: seq<Line>)
      ensures lines == Expanded(wanted)
    {
      lines := [];
      for k := 0 to |wanted|
        invariant lines == Expanded(wanted[..k])
      {
        var d := wanted[k];
        ExpandedNext(wanted, k);
        ghost var before := lines;
        if d.Seated() {
          for n := 0 to |d.seatIds|
            invariant lines == before + LinesOf(d)[..n]
          {
            lines := lines + [Line(d.ticketId, 1, Some(d.seatIds[n]))];
          }
        } else {
          lines := lines + [Line(d.ticketId, d.quantity, None)];
        }
      }
      TakeAll(wanted);
    }

    /** The row the order entity makes of a taken basket, pressed at once if the purchase says so. */
    static method OpenOrder(event: string, lines: seq<Line>, p: Purchase, now: int) returns (r: Result<Row, SaleError>)
      ensures r.Ok? <==> TicketsIn(lines) <= MAX_QUANTITY_PER_ORDER && p.formIsValid
      ensures r.Ok? ==>
                var row := PendingRow(event, lines, now + if p.confirm then p.holdFor else p.cartFor);
                r.value == if p.confirm then Confirmation(row, true, p.holdFor, now).0 else row
    {
      var quantity := 0;
      for k := 0 to |lines|
        invariant quantity == TicketsIn(lines[..k])
      {
        assert lines[..k + 1][..k] == lines[..k];
        quantity := quantity + lines[k].quantity;
      }
      TakeAll(lines);
      if quantity > MAX_QUANTITY_PER_ORDER {
        return Err(BadTicket(ErrInvalidQuantity));
      }
      if !p.formIsValid {
        return Err(ErrBadForm);
      }
      var item := new Order(PendingRow(event, lines, now + if p.confirm then p.holdFor else p.cartFor), now);
      if p.confirm {
        var _ := item.Confirm(p.formIsValid, p.holdFor, now);
      }
      return Ok(item.Stored());
    }

    /** Everything that is only read: the tiers, and which of them have chairs. */
    method Quote(wanted: seq<DraftItem>) returns (error: Option<SaleError>, event: string)
      requires wanted != [] && ChairsBelong(tiers, chairs)
      ensures error.None? <==>
                wanted[0].ticketId in tiers && Offerable(Rows(), tiers[wanted[0].ticketId].event, wanted)
      ensures error.None? ==> event == tiers[wanted[0].ticketId].event
    {
      error, event := ReadTiers(wanted);
      if error.None? {
        error := RequireChairs(wanted, event);
      }
    }

    /** One transaction over a normalised basket. */
    method Reserved(wanted: seq<DraftItem>, p: Purchase, now: int) returns (r: Result<nat, SaleError>)
      requires Valid() && Tidy(wanted) && wanted != []
      modifies this
      ensures r.Ok? <==> Takeable(old(Rows()), wanted) && p.formIsValid
      ensures r.Ok? ==> Rows() == Placed(old(Rows()), NewRow(old(Rows()), wanted, p, now)) && r.value == |old(orders)|
      ensures r.Err? ==> Rows() == old(Rows())
    {
      ghost var before := Rows();
      var saved := Rows();
      var error, event := Quote(wanted);
      if error.Some? {
        return Err(error.value);
      }
      error := TakeBasket(wanted, event);
      if error.Some? {
        Rollback(saved);
        return Err(error.value);
      }
      var lines := ExpandLines(wanted);
      var row := OpenOrder(event, lines, p, now);
      if row.Err? {
        Rollback(saved);
        return Err(row.error);
      }
      assert row.value == NewRow(before, wanted, p, now);
      TakingIsPlacing(before, row.value);
      r := Ok(|orders|);
      orders := orders + [row.value];
    }

    /** Reserves a whole basket under a new order, or leaves every table as it was. */
    method StartOrder(p: Purchase, now: int) returns (r: Result<nat, SaleError>)
      requires Valid()
      requires forall k | 0 <= k < |p.items| :: IsInt64(p.items[k].quantity)
      modifies this
      ensures Rows() == Started(old(Rows()), p, now) && Valid()
      ensures if r.Ok? then r.value == |old(orders)| && |orders| == r.value + 1 else Rows() == old(Rows())
    {
      StartingKeepsInv(Rows(), p, now);
      var requested := NormalizeItems(p.items);
      if requested.Err? {
        return Err(BadBasket(requested.error));
      }
      NormalizedIsTidy(p.items);
      r := Reserved(requested.value, p, now);
    }
  }

  /** One admission per ticket, the tickets of a tier numbered on from line to line. */
  method Mint(i: nat, lines: seq<Line>) returns (issued: seq<Admission>)
    requires forall k | 0 <= k < |lines| :: lines[k].quantity >= 1
    ensures issued == Fresh(i, Minted(lines))
  {
    issued := [];
    var sequences: map<string, int> := map[];
    for k := 0 to |lines|
      invariant issued == Fresh(i, Minted(lines[..k]))
      invariant forall t :: (if t in sequences then sequences[t] else 0) == Demand(lines[..k], t)
    {
      var line := lines[k];
      var from := if line.tier in sequences then sequences[line.tier] else 0;
      assert lines[..k + 1][..k] == lines[..k];
      for n := 0 to line.quantity
        invariant issued == Fresh(i, Minted(lines[..k]) + Numbered(line, from, n))
      {
        issued := issued + [Admission(i, Credential(line.tier, from + n + 1, line.seat), Issued, None, None)];
      }
      sequences := sequences[line.tier := from + line.quantity];
    }
    TakeAll(lines);
  }

  /** An order's seats by tier, the tiers sorted. */
  method GroupSeats(lines: seq<Line>) returns (names: seq<string>, byTier: map<string, seq<string>>)
    ensures Distinct(names)
    ensures forall k | 0 <= k < |names| :: names[k] in byTier
    ensures forall t | t in byTier :: byTier[t] == SeatList(lines, t)
    ensures forall t | SeatList(lines, t) != [] :: t in names
  {
    names, byTier := [], map[];
    for k := 0 to |lines|
      invariant Distinct(names) && Elems(names) == byTier.Keys
      invariant Grouped(lines[..k], byTier)
    {
      GroupedNext(lines, k, byTier);
      if lines[k].seat.Some? {
        names, byTier := AddSeat(names, byTier, lines[k].tier, lines[k].seat.value);
      }
    }
    TakeAll(lines);
    names := SortTiers(names);
  }

  method AddSeat(names: seq<string>, byTier: map<string, seq<string>>, t: string, seat: string)
    returns (names': seq<string>, byTier': map<string, seq<string>>)
    requires Distinct(names) && Elems(names) == byTier.Keys
    ensures Distinct(names') && Elems(names') == byTier'.Keys
    ensures byTier' == byTier[t := Group(byTier, t) + [seat]]
  {
    if t !in byTier {
      ElemsOfSnoc(names, t);
      assert (names + [t])[..|names|] == names;
      names' := names + [t];
      assert Group(byTier, t) + [seat] == [seat];
      byTier' := byTier[t := [seat]];
    } else {
      names' := names;
      byTier' := byTier[t := byTier[t] + [seat]];
    }
  }

  /** The entity's answer to a form, and the two columns it would write. */
  method DecideEdit(seen: Tier, draft: TierDraft)
    returns (error: Option<TicketError>, quantity: int, status: TierStatus)
    ensures error == Refusal(draft, seen.sold + seen.reserved)
    ensures error.None? ==> quantity == draft.quantity
    ensures error.None? ==> status == if draft.status.Some? then draft.status.value else seen.status
  {
    var ticket := new Ticket(seen, draft.title, draft.priceCents);
    error := ticket.Apply(draft);
    quantity, status := ticket.quantity, ticket.status;
  }

  method SortTiers(names: seq<string>) returns (sorted: seq<string>)
    requires Distinct(names)
    ensures Distinct(sorted) && forall t :: t in sorted <==> t in Elems(names)
  {
    sorted := Sort(names);
    SortedIsDistinct(sorted);
    forall t
      ensures t in sorted <==> t in Elems(names)
    {
      ElemsAreMembers(sorted, t);
    }
  }
}
