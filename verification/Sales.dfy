/**
 The sale protocol as a state machine over the rows of one database: tiers, named chairs,
 orders and admissions.

 Every step here is one transaction of usecases/checkout/service.go or
 usecases/payment/service.go, or one conditional statement of the seating, ticket and
 admission repositories. `BoxOffice` proves that the code's loops compute these steps.
 */
module Sales {
  import opened Results
  import opened Text
  import opened Orders
  import opened Tickets
  import opened Basket

  // ------------------------------------------------------------------ rows

  datatype ChairStatus = Available | Held | Taken | Blocked

  /** A named seat. `order` is the index of the order holding or owning it. */
  datatype Chair = Chair(event: string, tier: string, status: ChairStatus, order: Option<nat>) {
    predicate Occupied() { status.Held? || status.Taken? }
  }

  datatype AdmissionStatus = Issued | Admitted | Void

  /** What is printed on one ticket: "2 of 3" of a tier, and its chair if it has one. */
  datatype Credential = Credential(tier: string, sequence: int, seat: Option<string>)

  datatype Admission = Admission(
    order: nat, credential: Credential, status: AdmissionStatus, admittedAt: Option<int>, voidedAt: Option<int>)
  {
    function AtTheDoor(now: int): Admission { this.(status := Admitted, admittedAt := Some(now)) }
    function Withdrawn(now: int): Admission {
      if status.Void? then this else this.(status := Void, voidedAt := Some(now))
    }
  }

  /** The rows. An order's id is its index. */
  datatype Office = Office(
    tiers: map<string, Tier>, chairs: map<string, Chair>, orders: seq<Row>, admissions: seq<Admission>)

  // ------------------------------------------------------ what lines ask for

  /** How many tickets of one tier the lines are for. */
  function Demand(lines: seq<Line>, t: string): int {
    if lines == [] then 0
    else
      var last := lines[|lines| - 1];
      Demand(lines[..|lines| - 1], t) + if last.tier == t then last.quantity else 0
  }

  /** How many tickets the lines are for. */
  function TicketsIn(lines: seq<Line>): int {
    if lines == [] then 0 else TicketsIn(lines[..|lines| - 1]) + lines[|lines| - 1].quantity
  }

  predicate Names(lines: seq<Line>, c: string) {
    exists k :: 0 <= k < |lines| && lines[k].seat == Some(c)
  }

  /** Every tier can give what the lines ask of it. */
  predicate Room(tiers: map<string, Tier>, lines: seq<Line>) {
    forall k | 0 <= k < |lines| ::
      lines[k].tier in tiers && tiers[lines[k].tier].CanTake(Demand(lines, lines[k].tier))
  }

  /** Every chair the lines name exists, is of that tier and event, and is free. */
  predicate AllFree(chairs: map<string, Chair>, event: string, lines: seq<Line>) {
    forall k | 0 <= k < |lines| && lines[k].seat.Some? :: Claimable(chairs, event, lines[k].tier, lines[k].seat.value)
  }

  predicate Claimable(chairs: map<string, Chair>, event: string, tier: string, c: string) {
    c in chairs && chairs[c].event == event && chairs[c].tier == tier && chairs[c].status.Available?
  }

  // ------------------------------------------------- one order changing hands

  function OnHold(row: Row, t: string): int { if row.status.HoldsStock() then Demand(row.lines, t) else 0 }

  function Bought(row: Row, t: string): int { if row.status.Paid? then Demand(row.lines, t) else 0 }

  /** The counters once an order goes from `was` to `row`. */
  function Retallied(tiers: map<string, Tier>, was: Row, row: Row): map<string, Tier> {
    map t | t in tiers ::
      tiers[t].(reserved := tiers[t].reserved + OnHold(row, t) - OnHold(was, t),
                sold := tiers[t].sold + Bought(row, t) - Bought(was, t))
  }

  /** The chairs once order `i` is `row`: its own while it is pending or paid, nobody's otherwise. */
  function Reseated(chairs: map<string, Chair>, i: nat, row: Row): map<string, Chair> {
    map c | c in chairs ::
      if row.status.HoldsStock() && Names(row.lines, c) then chairs[c].(status := Held, order := Some(i))
      else if row.status.Paid? && Names(row.lines, c) then chairs[c].(status := Taken, order := Some(i))
      else if chairs[c].order == Some(i) then chairs[c].(status := Available, order := None)
      else chairs[c]
  }

  /** The credentials a line is worth, numbered on from what its tier already got. */
  function Minted(lines: seq<Line>): seq<Credential> {
    if lines == [] then []
    else
      var before, last := lines[..|lines| - 1], lines[|lines| - 1];
      Minted(before) + Numbered(last, Demand(before, last.tier), last.quantity)
  }

  function Numbered(line: Line, from: int, n: int): (r: seq<Credential>)
    ensures |r| == if n <= 0 then 0 else n
  {
    if n <= 0 then [] else Numbered(line, from, n - 1) + [Credential(line.tier, from + n, line.seat)]
  }

  function Fresh(i: nat, credentials: seq<Credential>): (r: seq<Admission>)
    ensures |r| == |credentials|
  {
    seq(|credentials|, k requires 0 <= k < |credentials| => Admission(i, credentials[k], Issued, None, None))
  }

  /** The credentials order `i` has been given. */
  function Given(admissions: seq<Admission>, i: nat): seq<Credential> {
    if admissions == [] then []
    else
      var last := admissions[|admissions| - 1];
      Given(admissions[..|admissions| - 1], i) + if last.order == i then [last.credential] else []
  }

  function VoidedFor(admissions: seq<Admission>, i: nat, now: int): (r: seq<Admission>)
    ensures |r| == |admissions|
  {
    seq(|admissions|, k requires 0 <= k < |admissions| =>
      if admissions[k].order == i then admissions[k].Withdrawn(now) else admissions[k])
  }

  /** `IssueForOrder` mints nothing for an order that already has admissions. */
  function IssuedFor(admissions: seq<Admission>, i: nat, lines: seq<Line>): seq<Admission>
  {
    if Given(admissions, i) == [] then admissions + Fresh(i, Minted(lines)) else admissions
  }

  function Readmitted(admissions: seq<Admission>, i: nat, row: Row, now: int): seq<Admission>
  {
    if row.status.Paid? then IssuedFor(admissions, i, row.lines)
    else if row.status.Refunded? then VoidedFor(admissions, i, now)
    else admissions
  }

  /** Order `i` moves to `next`, and stock, chairs and admissions move with it. */
  function Turned(o: Office, i: nat, next: Status, now: int): Office
    requires i < |o.orders|
  {
    var was, row := o.orders[i], o.orders[i].At(next, now);
    Office(Retallied(o.tiers, was, row),
           Reseated(o.chairs, i, row),
           o.orders[i := row],
           Readmitted(o.admissions, i, row, now))
  }

  // ------------------------------------------------------------------ steps

  /** The order lines of a normalised basket: a row per chair, a row per counted tier. */
  function Expanded(wanted: seq<DraftItem>): seq<Line> {
    if wanted == [] then []
    else Expanded(wanted[..|wanted| - 1]) + LinesOf(wanted[|wanted| - 1])
  }

  function LinesOf(d: DraftItem): seq<Line> {
    if d.Seated() then seq(|d.seatIds|, k requires 0 <= k < |d.seatIds| => Line(d.ticketId, 1, Some(d.seatIds[k])))
    else [Line(d.ticketId, d.quantity, None)]
  }

  /** Some chair of the event belongs to this tier. */
  predicate HasChairs(chairs: map<string, Chair>, event: string, t: string) {
    exists c :: c in chairs && chairs[c].event == event && chairs[c].tier == t
  }

  /** What one tier must pass before anything is reserved. */
  predicate OnOffer(tiers: map<string, Tier>, event: string, d: DraftItem) {
    && d.ticketId in tiers
    && tiers[d.ticketId].event == event
    && CanReserve(tiers[d.ticketId], d.quantity).None?
  }

  /** A tier with chairs is bought by the chair. */
  predicate ChoosesChairs(chairs: map<string, Chair>, event: string, d: DraftItem) {
    HasChairs(chairs, event, d.ticketId) ==> d.Seated()
  }

  /** The checks made before anything is reserved, all of one event. */
  predicate Offerable(o: Office, event: string, wanted: seq<DraftItem>) {
    forall k | 0 <= k < |wanted| :: OnOffer(o.tiers, event, wanted[k]) && ChoosesChairs(o.chairs, event, wanted[k])
  }

  /** An opened order before it is pressed. */
  function PendingRow(event: string, lines: seq<Line>, holdExpiresAt: int): Row {
    Row(event, lines, PendingPayment, holdExpiresAt, false, None, None)
  }

  /** An order that asks for nothing, which is what a new one changes from. */
  const NOTHING := Row("", [], PendingPayment, 0, false, None, None)

  /** What a buyer's request adds to the basket. `formIsValid` stands for the name, email and policy checks. */
  datatype Purchase = Purchase(items: seq<DraftItem>, confirm: bool, formIsValid: bool, cartFor: int, holdFor: int)

  predicate Takeable(o: Office, wanted: seq<DraftItem>) {
    && wanted != []
    && wanted[0].ticketId in o.tiers
    && var event := o.tiers[wanted[0].ticketId].event;
       var lines := Expanded(wanted);
       && Offerable(o, event, wanted)
       && AllFree(o.chairs, event, lines)
       && Room(o.tiers, lines)
       && TicketsIn(lines) <= MAX_QUANTITY_PER_ORDER
  }

  /** The row a purchase opens. */
  function NewRow(o: Office, wanted: seq<DraftItem>, p: Purchase, now: int): Row
    requires Takeable(o, wanted)
  {
    var row := PendingRow(o.tiers[wanted[0].ticketId].event, Expanded(wanted),
                      now + if p.confirm then p.holdFor else p.cartFor);
    if p.confirm then Confirmation(row, p.formIsValid, p.holdFor, now).0 else row
  }

  function Placed(o: Office, row: Row): Office {
    Office(Retallied(o.tiers, NOTHING, row), Reseated(o.chairs, |o.orders|, row), o.orders + [row], o.admissions)
  }

  /** Reserve, all of it or none. */
  ghost function Started(o: Office, p: Purchase, now: int): Office {
    var wanted := Normalized(p.items);
    if wanted.Ok? && Takeable(o, wanted.value) && p.formIsValid
    then Placed(o, NewRow(o, wanted.value, p, now))
    else o
  }

  function Pressed(o: Office, i: nat, formIsValid: bool, holdFor: int, now: int): Office {
    if i < |o.orders| && !o.orders[i].HoldLapsed(now)
    then o.(orders := o.orders[i := Confirmation(o.orders[i], formIsValid, holdFor, now).0])
    else o
  }

  function Applied(o: Office, i: nat, next: Status, now: int): Office {
    if i < |o.orders| && Decision(o.orders[i].status, next) == Ok(true) then Turned(o, i, next, now) else o
  }

  function Lapsed(o: Office, i: nat, now: int): Office {
    if i < |o.orders| && o.orders[i].HoldLapsed(now) then Applied(o, i, Expired, now) else o
  }

  /** `ClaimExpired` hands a sweep whichever lapsed orders no other sweep has locked. */
  function Swept(o: Office, picks: seq<nat>, now: int): Office {
    if picks == [] then o else Lapsed(Swept(o, picks[..|picks| - 1], now), picks[|picks| - 1], now)
  }

  /** A late payment can still be honoured: the very chairs, and the counted stock. */
  predicate CanRetake(o: Office, row: Row) {
    AllFree(o.chairs, row.event, row.lines) && Room(o.tiers, row.lines)
  }

  function Verdict(o: Office, row: Row, charge: ChargeStatus): Option<Status> {
    match StatusFor(charge)
    case None => None
    case Some(next) =>
      Some(if next.Paid? && !row.status.HoldsStock() && !CanRetake(o, row) then RefundRequired else next)
  }

  function Settled(o: Office, i: nat, charge: ChargeStatus, now: int): Office {
    if i >= |o.orders| then o
    else
      match Verdict(o, o.orders[i], charge)
      case None => o
      case Some(next) => Applied(o, i, next, now)
  }

  /** An operator's edit, decided on a copy that may be stale; the database has the last word. */
  function Edited(o: Office, t: string, seen: Tier, draft: TierDraft): Office {
    if Refusal(draft, seen.sold + seen.reserved).None?
    then Written(o, t, draft.quantity, if draft.status.Some? then draft.status.value else seen.status)
    else o
  }

  /** A change of status, decided on a copy that may be stale too. It writes that copy's quantity back. */
  function Relisted(o: Office, t: string, seen: Tier, next: TierStatus): Office {
    if next.OnSale? && seen.Available() <= 0 then o else Written(o, t, seen.quantity, next)
  }

  /** The write both make: never the counters, and only if the stored counters still fit. */
  function Written(o: Office, t: string, quantity: int, status: TierStatus): Office {
    if t in o.tiers && o.tiers[t].(quantity := quantity).WithinBounds()
    then o.(tiers := o.tiers[t := o.tiers[t].(quantity := quantity, status := status)])
    else o
  }

  /** The area bound to a tier is redrawn. */
  function Rebound(o: Office, t: string, area: Option<int>): Office {
    if t in o.tiers then o.(tiers := o.tiers[t := o.tiers[t].(area := area)]) else o
  }

  ghost function Withheld(o: Office, event: string, ids: seq<string>): Office {
    o.(chairs := map c | c in o.chairs ::
      if o.chairs[c].event == event && o.chairs[c].status.Available? && c in SeatSet(ids)
      then o.chairs[c].(status := Blocked) else o.chairs[c])
  }

  ghost function Restored(o: Office, event: string, ids: seq<string>): Office {
    o.(chairs := map c | c in o.chairs ::
      if o.chairs[c].event == event && o.chairs[c].status.Blocked? && c in SeatSet(ids)
      then o.chairs[c].(status := Available) else o.chairs[c])
  }

  function Scanned(o: Office, a: nat, now: int): Office {
    if a < |o.admissions| && o.admissions[a].status.Issued?
    then o.(admissions := o.admissions[a := o.admissions[a].AtTheDoor(now)])
    else o
  }

  /** Issuing again for a paid order. */
  function Reissued(o: Office, i: nat): Office {
    if i < |o.orders| && o.orders[i].status.Paid?
    then o.(admissions := IssuedFor(o.admissions, i, o.orders[i].lines))
    else o
  }

  datatype Step =
    | Start(purchase: Purchase)
    | Press(order: nat, formIsValid: bool, holdFor: int)
    | Cancel(order: nat)
    | Expire(order: nat)
    | Sweep(picks: seq<nat>)
    | Settle(order: nat, charge: ChargeStatus)
    | Edit(tier: string, seen: Tier, draft: TierDraft)
    | Relist(tier: string, seen: Tier, next: TierStatus)
    | Rebind(tier: string, area: Option<int>)
    | Block(event: string, ids: seq<string>)
    | Unblock(event: string, ids: seq<string>)
    | Scan(admission: nat)
    | Reissue(order: nat)

  ghost function After(o: Office, step: Step, now: int): Office {
    match step
    case Start(p) => Started(o, p, now)
    case Press(i, formIsValid, holdFor) => Pressed(o, i, formIsValid, holdFor, now)
    case Cancel(i) => Applied(o, i, Cancelled, now)
    case Expire(i) => Lapsed(o, i, now)
    case Sweep(picks) => Swept(o, picks, now)
    case Settle(i, charge) => Settled(o, i, charge, now)
    case Edit(t, seen, draft) => Edited(o, t, seen, draft)
    case Relist(t, seen, next) => Relisted(o, t, seen, next)
    case Rebind(t, area) => Rebound(o, t, area)
    case Block(event, ids) => Withheld(o, event, ids)
    case Unblock(event, ids) => Restored(o, event, ids)
    case Scan(a) => Scanned(o, a, now)
    case Reissue(i) => Reissued(o, i)
  }

  /** Any interleaving: the transactions of every client, one after the other, at whatever clock. */
  ghost function Run(o: Office, steps: seq<(Step, int)>): Office {
    if steps == [] then o
    else After(Run(o, steps[..|steps| - 1]), steps[|steps| - 1].0, steps[|steps| - 1].1)
  }
}
