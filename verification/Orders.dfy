/**
 The order entity: its status machine, `Apply`, `Confirm` and `StatusFor`
 (domain/order/order.go).
 */
module Orders {
  import opened Results

  /** `Unrecognised` stands for every status string the domain does not know. */
  datatype Status =
    | PendingPayment | Paid | Expired | Cancelled | Failed | Refunded | RefundRequired | Unrecognised
  {
    predicate HoldsStock() { PendingPayment? }
    predicate Valid() { !Unrecognised? }
  }

  datatype ChargeStatus = ChargePending | ChargePaid | Rejected | ChargeCancelled | ChargeRefunded | ChargedBack | InAnalysis

  /** The transition table. */
  function Transitions(s: Status): set<Status> {
    match s
    case PendingPayment => {Paid, Expired, Cancelled, Failed, RefundRequired}
    case Expired => {Paid, RefundRequired}
    case Cancelled => {Paid, RefundRequired}
    case Failed => {Paid, RefundRequired}
    case Paid => {Refunded}
    case RefundRequired => {Refunded}
    case Refunded => {}
    case Unrecognised => {}
  }

  predicate CanTransition(s: Status, next: Status) {
    next.Valid() && next in Transitions(s)
  }

  /** How far along its life an order is. */
  function Rank(s: Status): (r: nat)
    ensures r <= 3
  {
    match s
    case PendingPayment => 0
    case Expired => 1
    case Cancelled => 1
    case Failed => 1
    case Paid => 2
    case RefundRequired => 2
    case Refunded => 3
    case Unrecognised => 0
  }

  function StatusFor(charge: ChargeStatus): Option<Status> {
    match charge
    case ChargePaid => Some(Paid)
    case Rejected => Some(Failed)
    case ChargeCancelled => Some(Expired)
    case ChargeRefunded => Some(Refunded)
    case ChargedBack => Some(Refunded)
    case ChargePending => None
    case InAnalysis => None
  }

  /** One tier's share of an order. A seated line names its chair and is for one ticket. */
  datatype Line = Line(tier: string, quantity: int, seat: Option<string>)

  /** An order as its row stores it. */
  datatype Row = Row(
    event: string,
    lines: seq<Line>,
    status: Status,
    holdExpiresAt: int,
    confirmed: bool,
    paidAt: Option<int>,
    closedAt: Option<int>)
  {
    /** The row after it is moved to `next`; the first payment and the first closing are kept. */
    function At(next: Status, now: int): Row {
      this.(status := next,
            paidAt := if next.Paid? && paidAt.None? then Some(now) else paidAt,
            closedAt := if !next.Paid? && !next.PendingPayment? && closedAt.None? then Some(now) else closedAt)
    }

    predicate HoldLapsed(now: int) { status.HoldsStock() && now >= holdExpiresAt }
  }

  datatype OrderError = ErrInvalidTransition | ErrHoldExpired | ErrInvalidBuyer

  /** What `Apply` decides: whether anything changes, or why it must not. */
  function Decision(s: Status, next: Status): Result<bool, OrderError> {
    if !next.Valid() then Err(ErrInvalidTransition)
    else if s == next then Ok(false)
    else if !CanTransition(s, next) then Err(ErrInvalidTransition)
    else Ok(true)
  }

  /** What a confirmation leaves in the row. */
  function Confirmation(row: Row, buyerIsValid: bool, holdFor: int, now: int): (Row, Result<bool, OrderError>) {
    if !row.status.HoldsStock() then (row, Err(ErrHoldExpired))
    else if !buyerIsValid then (row, Err(ErrInvalidBuyer))
    else if row.confirmed then (row, Ok(false))
    else
      var extended := now + holdFor;
      (row.(confirmed := true,
            holdExpiresAt := if extended > row.holdExpiresAt then extended else row.holdExpiresAt),
       Ok(true))
  }

  /** The entity a use case loads, changes and writes back. */
  class Order {
    var event: string
    var lines: seq<Line>
    var status: Status
    var holdExpiresAt: int
    var confirmed: bool
    var paidAt: Option<int>
    var closedAt: Option<int>
    var updatedAt: int

    constructor (row: Row, updatedAt: int)
      ensures Stored() == row
    {
      event, lines, status := row.event, row.lines, row.status;
      holdExpiresAt, confirmed := row.holdExpiresAt, row.confirmed;
      paidAt, closedAt := row.paidAt, row.closedAt;
      this.updatedAt := updatedAt;
    }

    function Stored(): Row
      reads this
    {
      Row(event, lines, status, holdExpiresAt, confirmed, paidAt, closedAt)
    }

    method Apply(next: Status, now: int) returns (r: Result<bool, OrderError>)
      modifies this
      ensures r == Decision(old(status), next)
      ensures Stored() == if r == Ok(true) then old(Stored()).At(next, now) else old(Stored())
      ensures updatedAt == if r == Ok(true) then now else old(updatedAt)
      ensures r == Ok(false) <==> next == old(status) && !next.Unrecognised?
      ensures r == Ok(true) <==>
                || (old(status).PendingPayment? && next in {Paid, Expired, Cancelled, Failed, RefundRequired})
                || (old(status) in {Expired, Cancelled, Failed} && next in {Paid, RefundRequired})
                || (old(status) in {Paid, RefundRequired} && next.Refunded?)
      ensures r.Err? ==> r.error == ErrInvalidTransition
      ensures event == old(event) && lines == old(lines) && holdExpiresAt == old(holdExpiresAt) && confirmed == old(confirmed)
      ensures r == Ok(true) ==>
                && status == next
                && paidAt == (if next.Paid? && old(paidAt).None? then Some(now) else old(paidAt))
                && closedAt == (if !next.Paid? && old(closedAt).None? then Some(now) else old(closedAt))
    {
      if !next.Valid() {
        return Err(ErrInvalidTransition);
      }
      if status == next {
        return Ok(false);
      }
      if !CanTransition(status, next) {
        return Err(ErrInvalidTransition);
      }
      status := next;
      updatedAt := now;
      match next {
        case Paid =>
          if paidAt.None? {
            paidAt := Some(now);
          }
        case Expired | Cancelled | Failed | Refunded | RefundRequired =>
          if closedAt.None? {
            closedAt := Some(now);
          }
        case _ =>
      }
      return Ok(true);
    }

    method Confirm(buyerIsValid: bool, holdFor: int, now: int) returns (r: Result<bool, OrderError>)
      modifies this
      ensures (Stored(), r) == Confirmation(old(Stored()), buyerIsValid, holdFor, now)
      ensures updatedAt == if r.Ok? then now else old(updatedAt)
      ensures r.Ok? <==> old(status).PendingPayment? && buyerIsValid
      ensures r.Err? ==> r.error == if old(status).PendingPayment? then ErrInvalidBuyer else ErrHoldExpired
      ensures r.Ok? ==> r.value == !old(confirmed) && confirmed && old(holdExpiresAt) <= holdExpiresAt
      ensures holdExpiresAt == if r == Ok(true) && now + holdFor > old(holdExpiresAt) then now + holdFor else old(holdExpiresAt)
      ensures event == old(event) && lines == old(lines) && status == old(status)
              && paidAt == old(paidAt) && closedAt == old(closedAt)
    {
      if !status.HoldsStock() {
        return Err(ErrHoldExpired);
      }
      if !buyerIsValid {
        return Err(ErrInvalidBuyer);
      }
      updatedAt := now;
      if confirmed {
        return Ok(false);
      }
      confirmed := true;
      var extended := now + holdFor;
      if extended > holdExpiresAt {
        holdExpiresAt := extended;
      }
      return Ok(true);
    }
  }

  // -------------------------------------------------------------- theorems

  /** Every effective transition climbs, which is why no order ever cycles. */
  lemma {:induction false} TransitionsClimb(s: Status, next: Status)
    requires CanTransition(s, next)
    ensures Rank(next) > Rank(s)
  {
  }

  /** A story of statuses told to one order, in any order and with any repetitions. */
  ghost function Told(row: Row, story: seq<(Status, int)>): Row {
    if story == [] then row
    else
      var before, (next, now) := Told(row, story[..|story| - 1]), story[|story| - 1];
      if Decision(before.status, next) == Ok(true) then before.At(next, now) else before
  }

  ghost function Changes(row: Row, story: seq<(Status, int)>): nat {
    if story == [] then 0
    else
      var before := Told(row, story[..|story| - 1]);
      Changes(row, story[..|story| - 1])
      + if Decision(before.status, story[|story| - 1].0) == Ok(true) then 1 else 0
  }

  /** Whatever is delivered, and however often, an order changes status at most three times. */
  lemma {:induction false} AtMostThreeChanges(row: Row, story: seq<(Status, int)>)
    ensures Changes(row, story) <= Rank(Told(row, story).status) - Rank(row.status) <= 3
  {
    if story != [] {
      AtMostThreeChanges(row, story[..|story| - 1]);
    }
  }

  /** The first payment and the first closing are never rewritten. */
  lemma {:induction false} TimestampsAreWrittenOnce(row: Row, story: seq<(Status, int)>)
    ensures var after := Told(row, story);
            && (row.paidAt.Some? ==> after.paidAt == row.paidAt)
            && (row.closedAt.Some? ==> after.closedAt == row.closedAt)
            && after.lines == row.lines && after.event == row.event && after.holdExpiresAt == row.holdExpiresAt
  {
    if story != [] {
      TimestampsAreWrittenOnce(row, story[..|story| - 1]);
    }
  }

  ghost function Confirmed(row: Row, presses: seq<(int, int)>): Row {
    if presses == [] then row
    else
      var (holdFor, now) := presses[|presses| - 1];
      Confirmation(Confirmed(row, presses[..|presses| - 1]), true, holdFor, now).0
  }

  /** However many times the form is submitted, only the first press moves the window, and never backwards. */
  lemma {:induction false} ConfirmExtendsOnce(row: Row, presses: seq<(int, int)>)
    requires row.status.HoldsStock() && !row.confirmed && presses != []
    ensures var (holdFor, now) := presses[0];
            var after := Confirmed(row, presses);
            && after.confirmed && after.status == row.status
            && after.holdExpiresAt >= row.holdExpiresAt
            && after.holdExpiresAt == (if now + holdFor > row.holdExpiresAt then now + holdFor else row.holdExpiresAt)
  {
    if |presses| > 1 {
      ConfirmExtendsOnce(row, presses[..|presses| - 1]);
    } else {
      assert Confirmed(row, presses[..0]) == row;
    }
  }
}
