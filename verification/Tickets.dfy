/**
 One price tier of an event (domain/ticket/ticket.go) and the four inventory statements that
 move its counters (infra/repositories/ticket/ticket_stock.go).
 */
module Tickets {
  import opened Results
  import opened Text

  datatype TierStatus = Draft | OnSale | SoldOut | CancelledTier

  /**
   A tier as its row stores it. `area` is the smallest capacity of the standing areas or boxes
   bound to it, when there is one.
   */
  datatype Tier = Tier(event: string, quantity: int, sold: int, reserved: int, status: TierStatus, area: Option<int>) {

    /** The condition inside the conditional update that reserves. */
    predicate CanTake(n: int) {
      && status.OnSale?
      && quantity - sold - reserved >= n
      && sold + reserved + n <= (if area.Some? then area.value else quantity)
    }

    /** The bounds the database checks on every write. */
    predicate WithinBounds() { sold >= 0 && reserved >= 0 && sold + reserved <= quantity }

    function Available(): int {
      if quantity - sold - reserved < 0 then 0 else quantity - sold - reserved
    }

    function Moved(move: Move, n: int): Tier {
      match move
      case Take => this.(reserved := reserved + n)
      case GiveBack => this.(reserved := reserved - n)
      case Sell => this.(reserved := reserved - n, sold := sold + n)
      case Unsell => this.(sold := sold - n)
    }

    /** What must be there before stock may be moved. */
    predicate Allows(move: Move, n: int) {
      match move
      case Take => CanTake(n)
      case GiveBack => reserved >= n
      case Sell => reserved >= n
      case Unsell => sold >= n
    }
  }

  /** `Reserve`, `Release`, `Commit` and `ReleaseSold`. */
  datatype Move = Take | GiveBack | Sell | Unsell

  datatype TicketError = ErrNotFound | ErrInvalidEvent | ErrInvalidTitle | ErrInvalidPrice | ErrInvalidQuantity
                       | ErrQuantityBelowSold | ErrNoStock | ErrNotOnSale | ErrInsufficientStock | ErrNoMatchingHold

  function CanReserve(tier: Tier, n: int): Option<TicketError> {
    if n <= 0 then Some(ErrInvalidQuantity)
    else if !tier.status.OnSale? then Some(ErrNotOnSale)
    else if tier.Available() < n then Some(ErrInsufficientStock)
    else None
  }

  /** What an operator's form carries. A blank status leaves the tier's own. */
  datatype TierDraft = TierDraft(event: string, title: string, priceCents: int, quantity: int, status: Option<TierStatus>)

  function Refusal(draft: TierDraft, taken: int): Option<TicketError> {
    if Trim(draft.event) == "" then Some(ErrInvalidEvent)
    else if Trim(draft.title) == "" then Some(ErrInvalidTitle)
    else if draft.priceCents < 0 then Some(ErrInvalidPrice)
    else if draft.quantity <= 0 then Some(ErrInvalidQuantity)
    else if draft.quantity < taken then Some(ErrQuantityBelowSold)
    else None
  }

  /** The entity a use case loads, edits and writes back. */
  class Ticket {
    const event: string
    var title: string
    var priceCents: int
    var quantity: int
    var sold: int
    var reserved: int
    var status: TierStatus
    const area: Option<int>

    constructor (tier: Tier, title: string, priceCents: int)
      ensures Stored() == tier && this.title == title && this.priceCents == priceCents
    {
      event, quantity, sold, reserved, status, area :=
        tier.event, tier.quantity, tier.sold, tier.reserved, tier.status, tier.area;
      this.title, this.priceCents := title, priceCents;
    }

    function Stored(): Tier
      reads this
    {
      Tier(event, quantity, sold, reserved, status, area)
    }

    /** The counters, the event and the area are out of an edit's reach. */
    method Apply(draft: TierDraft) returns (error: Option<TicketError>)
      modifies this
      ensures error == Refusal(draft, old(sold + reserved))
      ensures error == if Trim(draft.event) == "" then Some(ErrInvalidEvent)
                       else if Trim(draft.title) == "" then Some(ErrInvalidTitle)
                       else if draft.priceCents < 0 then Some(ErrInvalidPrice)
                       else if draft.quantity <= 0 then Some(ErrInvalidQuantity)
                       else if draft.quantity < old(sold + reserved) then Some(ErrQuantityBelowSold)
                       else None
      ensures error.Some? ==> Stored() == old(Stored()) && title == old(title) && priceCents == old(priceCents)
      ensures error.None? ==>
                && Stored() == old(Stored()).(quantity := draft.quantity,
                                              status := if draft.status.Some? then draft.status.value else old(status))
                && title == Trim(draft.title) && priceCents == draft.priceCents
                && (old(Stored()).sold >= 0 && old(Stored()).reserved >= 0 ==> Stored().WithinBounds())
    {
      error := Refusal(draft, sold + reserved);
      if error.Some? {
        return;
      }
      title := Trim(draft.title);
      priceCents := draft.priceCents;
      quantity := draft.quantity;
      if draft.status.Some? {
        status := draft.status.value;
      }
    }

    /** Going on sale with nothing left is the one refusal. */
    method ChangeStatus(next: TierStatus) returns (error: Option<TicketError>)
      modifies this`status
      ensures error.Some? <==> next.OnSale? && old(quantity <= sold + reserved)
      ensures error.Some? ==> error.value == ErrNoStock && status == old(status)
      ensures error.None? ==> status == next
    {
      if next.OnSale? && Stored().Available() <= 0 {
        return Some(ErrNoStock);
      }
      status := next;
      return None;
    }
  }
}
