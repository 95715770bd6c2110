/**
 Row locks: which transactions can wait for each other in a circle, and which cannot.

 A transaction is the list of locks it takes, in order; it keeps them all until it commits, and
 asking again for one it has is no wait. A claim is taken to lock its rows in the order of the ids
 it is given. What an order already holds (its chairs, when they are released or sold) is nobody
 else's to wait for, and is not listed.
 */
module Locks {
  import opened Results
  import opened Text
  import opened Basket
  import BasketTheorems

  /** The manifest of an event is shared by its checkouts and taken alone by whoever redraws its areas. */
  datatype Lock =
    | OrderRow(order: nat)
    | Manifest(event: string, shared: bool)
    | Buyer(key: int)
    | Seat(tier: string, seat: string)
    | TierRow(tier: string)
  {
    function Layer(): nat {
      if OrderRow? then 0 else if Manifest? then 1 else if Buyer? then 2 else 3
    }
  }

  /** The order: the order's row, the manifest, the buyer, then tier by tier, chairs before the counter. */
  predicate Before(a: Lock, b: Lock) {
    if a.Layer() != b.Layer() then a.Layer() < b.Layer()
    else
      match a
      case OrderRow(x) => x < b.order
      case Manifest(e, _) => Less(e, b.event)
      case Buyer(x) => x < b.key
      case Seat(t, s) => Less(t, b.tier) || (t == b.tier && (b.TierRow? || Less(s, b.seat)))
      case TierRow(t) => Less(t, b.tier)
  }

  /** Two transactions cannot have both. */
  predicate Clash(a: Lock, b: Lock) {
    if a.Manifest? && b.Manifest? then a.event == b.event && !(a.shared && b.shared) else a == b
  }

  lemma {:induction false} ClashMoves(a: Lock, b: Lock, c: Lock)
    requires Clash(a, b) && Before(a, c)
    ensures Before(b, c)
  {
  }

  lemma {:induction false} BeforeTransitive(a: Lock, b: Lock, c: Lock)
    requires Before(a, b) && Before(b, c)
    ensures Before(a, c)
  {
    if a.Layer() == b.Layer() == c.Layer() {
      if a.Manifest? {
        LessTransitive(a.event, b.event, c.event);
      } else if a.Layer() == 3 {
        TiersTransitive(a, b, c);
      }
    }
  }

  lemma {:induction false} TiersTransitive(a: Lock, b: Lock, c: Lock)
    requires a.Layer() == b.Layer() == c.Layer() == 3 && Before(a, b) && Before(b, c)
    ensures Before(a, c)
  {
    if Less(a.tier, b.tier) && Less(b.tier, c.tier) {
      LessTransitive(a.tier, b.tier, c.tier);
    }
    if a.Seat? && b.Seat? && c.Seat? && Less(a.seat, b.seat) && Less(b.seat, c.seat) {
      LessTransitive(a.seat, b.seat, c.seat);
    }
  }

  lemma {:induction false} BeforeIrreflexive(a: Lock)
    ensures !Before(a, a)
  {
    if a.Manifest? {
      LessIrreflexive(a.event);
    } else if a.Layer() == 3 {
      LessIrreflexive(a.tier);
      if a.Seat? {
        LessIrreflexive(a.seat);
      }
    }
  }

  /** From the `free`-th on, each lock not had already comes after every lock taken before it. */
  ghost predicate RisingFrom(script: seq<Lock>, free: nat) {
    forall j, k | 0 <= j < k < |script| && free <= k :: script[k] in script[..k] || Before(script[j], script[k])
  }

  ghost predicate Rising(script: seq<Lock>) { RisingFrom(script, 0) }

  /** Each lock comes after every one taken before it. */
  ghost predicate Ascending(script: seq<Lock>) {
    forall j, k | 0 <= j < k < |script| :: Before(script[j], script[k])
  }

  lemma {:induction false} AscendingTogether(a: seq<Lock>, b: seq<Lock>)
    requires Ascending(a) && Ascending(b)
    requires forall j, k | 0 <= j < |a| && 0 <= k < |b| :: Before(a[j], b[k])
    ensures Ascending(a + b)
  {
  }

  // ------------------------------------------------------------ the machine

  /**
   A transaction in flight: it has taken the first `got` locks of its script. The first `free` it took
   without ever waiting, skipping whatever was locked.
   */
  datatype Transaction = Transaction(script: seq<Lock>, free: nat, got: nat, done: bool) {
    ghost predicate Valid() { free <= got <= |script| }
    ghost predicate Orderly() { RisingFrom(script, free) }
    ghost predicate Blocks(l: Lock)
      requires Valid()
    {
      !done && exists m :: 0 <= m < got && Clash(script[m], l)
    }
    /** Its next lock is one it does not have yet. */
    predicate Wants() { !done && got < |script| && script[got] !in script[..got] }
  }

  ghost predicate Valid(ts: seq<Transaction>) {
    forall i | 0 <= i < |ts| :: ts[i].Valid()
  }

  ghost predicate Waits(ts: seq<Transaction>, i: nat, j: nat)
    requires Valid(ts) && i < |ts| && j < |ts|
  {
    j != i && ts[i].Wants() && ts[j].Blocks(ts[i].script[ts[i].got])
  }

  /** It commits, or its next lock is free or its own. */
  ghost predicate CanAdvance(ts: seq<Transaction>, i: nat)
    requires Valid(ts) && i < |ts|
  {
    !ts[i].done && forall j | 0 <= j < |ts| :: !Waits(ts, i, j)
  }

  function Advanced(t: Transaction): Transaction {
    if t.got < |t.script| then t.(got := t.got + 1) else t.(done := true)
  }

  /** The transaction whose next lock no other's next lock comes after. */
  ghost predicate Furthest(ts: seq<Transaction>, n: nat, k: nat)
    requires n <= |ts| && k < n
  {
    && ts[k].Wants()
    && forall j | 0 <= j < n && ts[j].Wants() :: !Before(ts[k].script[ts[k].got], ts[j].script[ts[j].got])
  }

  lemma {:induction false} SomeoneIsFurthest(ts: seq<Transaction>, n: nat) returns (k: nat)
    requires 0 < n <= |ts|
    requires exists i :: 0 <= i < n && ts[i].Wants()
    ensures k < n && Furthest(ts, n, k)
  {
    var m := n - 1;
    if i :| 0 <= i < m && ts[i].Wants() {
      k := SomeoneIsFurthest(ts, m);
      if ts[m].Wants() && Before(ts[k].script[ts[k].got], ts[m].script[ts[m].got]) {
        forall j | 0 <= j < n && ts[j].Wants()
          ensures !Before(ts[m].script[ts[m].got], ts[j].script[ts[j].got])
        {
          if Before(ts[m].script[ts[m].got], ts[j].script[ts[j].got]) {
            BeforeTransitive(ts[k].script[ts[k].got], ts[m].script[ts[m].got], ts[j].script[ts[j].got]);
            BeforeIrreflexive(ts[m].script[ts[m].got]);
          }
        }
        k := m;
      }
    } else {
      k := m;
      BeforeIrreflexive(ts[m].script[ts[m].got]);
    }
  }

  /** Transactions that all take their locks in one order are never all waiting. */
  lemma {:induction false} NoCircularWait(ts: seq<Transaction>, unfinished: nat) returns (k: nat)
    requires Valid(ts) && forall i | 0 <= i < |ts| :: ts[i].Orderly()
    requires unfinished < |ts| && !ts[unfinished].done
    ensures k < |ts| && CanAdvance(ts, k)
  {
    if i :| 0 <= i < |ts| && !ts[i].done && !ts[i].Wants() {
      k := i;
    } else {
      assert ts[unfinished].Wants();
      k := SomeoneIsFurthest(ts, |ts|);
      forall j | 0 <= j < |ts|
        ensures !Waits(ts, k, j)
      {
        if Waits(ts, k, j) {
          var wanted := ts[k].script[ts[k].got];
          var m :| 0 <= m < ts[j].got && Clash(ts[j].script[m], wanted);
          assert ts[j].Wants();
          ClashMoves(ts[j].script[m], wanted, ts[j].script[ts[j].got]);
        }
      }
    }
  }

  function Left(ts: seq<Transaction>): nat
    requires forall i | 0 <= i < |ts| :: ts[i].got <= |ts[i].script|
  {
    if ts == [] then 0
    else
      var t := ts[|ts| - 1];
      Left(ts[..|ts| - 1]) + if t.done then 0 else |t.script| - t.got + 1
  }

  lemma {:induction false} AdvancingLeavesLess(ts: seq<Transaction>, k: nat)
    requires Valid(ts) && k < |ts| && !ts[k].done
    ensures Valid(ts[k := Advanced(ts[k])]) && Left(ts[k := Advanced(ts[k])]) < Left(ts)
  {
    var n := |ts| - 1;
    var after := ts[k := Advanced(ts[k])];
    if k < n {
      AdvancingLeavesLess(ts[..n], k);
      assert after[..n] == ts[..n][k := Advanced(ts[k])];
    } else {
      assert after[..n] == ts[..n];
    }
  }

  ghost function Played(ts: seq<Transaction>, turns: seq<nat>): seq<Transaction>
    decreases |turns|
  {
    if turns == [] then ts
    else
      var k := turns[0];
      if Valid(ts) && k < |ts| && CanAdvance(ts, k) then Played(ts[k := Advanced(ts[k])], turns[1..])
      else Played(ts, turns[1..])
  }

  /** However far they have got, some schedule lets every one of them commit. */
  lemma {:induction false} EveryoneCanFinish(ts: seq<Transaction>) returns (turns: seq<nat>)
    requires Valid(ts) && forall i | 0 <= i < |ts| :: ts[i].Orderly()
    ensures var end := Played(ts, turns);
            |end| == |ts| && forall i | 0 <= i < |end| :: end[i].done
    decreases Left(ts)
  {
    turns := [];
    if i :| 0 <= i < |ts| && !ts[i].done {
      var k := NoCircularWait(ts, i);
      AdvancingLeavesLess(ts, k);
      var rest := EveryoneCanFinish(ts[k := Advanced(ts[k])]);
      turns := [k] + rest;
      assert turns[1..] == rest;
    }
  }

  // ------------------------------------------------------------- checkouts

  /** Chairs of one basket line in the order the claim names them. */
  ghost function SeatScript(d: DraftItem): (r: seq<Lock>)
    ensures |r| == |d.seatIds| && forall k | 0 <= k < |r| :: r[k] == Seat(d.ticketId, d.seatIds[k])
  {
    seq(|d.seatIds|, k requires 0 <= k < |d.seatIds| => Seat(d.ticketId, d.seatIds[k]))
  }

  /** The chairs, then the tier's row. */
  ghost function ItemScript(d: DraftItem): seq<Lock> { SeatScript(d) + [TierRow(d.ticketId)] }

  ghost function ItemsScript(wanted: seq<DraftItem>): seq<Lock> {
    if wanted == [] then [] else ItemsScript(wanted[..|wanted| - 1]) + ItemScript(wanted[|wanted| - 1])
  }

  /** An event without a seating manifest has none to lock, a sale with no account behind it no buyer. */
  ghost function CheckoutScript(event: Option<string>, buyer: Option<int>, wanted: seq<DraftItem>): seq<Lock> {
    (if event.Some? then [Manifest(event.value, true)] else [])
    + (if buyer.Some? then [Buyer(buyer.value)] else [])
    + ItemsScript(wanted)
  }

  lemma {:induction false} ItemScriptAscends(d: DraftItem)
    requires d.Seated() ==> StrictlySorted(d.seatIds)
    ensures Ascending(SeatScript(d)) && Ascending(ItemScript(d))
  {
    forall j, k | 0 <= j < k < |d.seatIds|
      ensures Less(d.seatIds[j], d.seatIds[k])
    {
      SortedMeans(d.seatIds, j, k);
    }
  }

  lemma {:induction false} ItemsAreStock(wanted: seq<DraftItem>, k: nat) returns (i: nat)
    requires k < |ItemsScript(wanted)|
    ensures i < |wanted| && ItemsScript(wanted)[k].Layer() == 3 && ItemsScript(wanted)[k].tier == wanted[i].ticketId
  {
    var n := |wanted| - 1;
    if k < |ItemsScript(wanted[..n])| {
      i := ItemsAreStock(wanted[..n], k);
    } else {
      i := n;
    }
  }

  lemma {:induction false} ItemsScriptAscends(wanted: seq<DraftItem>, n: nat)
    requires StrictlySorted(TicketIds(wanted)) && n <= |wanted|
    requires forall k | 0 <= k < |wanted| && wanted[k].Seated() :: StrictlySorted(wanted[k].seatIds)
    ensures Ascending(ItemsScript(wanted[..n]))
  {
    if n > 0 {
      var d, before := wanted[n - 1], ItemsScript(wanted[..n - 1]);
      assert wanted[..n][..n - 1] == wanted[..n - 1];
      ItemsScriptAscends(wanted, n - 1);
      ItemScriptAscends(d);
      ItemFollows(wanted, n - 1);
      AscendingTogether(before, ItemScript(d));
    }
  }

  lemma {:induction false} ItemFollows(wanted: seq<DraftItem>, n: nat)
    requires StrictlySorted(TicketIds(wanted)) && n < |wanted|
    ensures forall j, k | 0 <= j < |ItemsScript(wanted[..n])| && 0 <= k < |ItemScript(wanted[n])| ::
              Before(ItemsScript(wanted[..n])[j], ItemScript(wanted[n])[k])
  {
    forall j, k | 0 <= j < |ItemsScript(wanted[..n])| && 0 <= k < |ItemScript(wanted[n])|
      ensures Before(ItemsScript(wanted[..n])[j], ItemScript(wanted[n])[k])
    {
      var i := ItemsAreStock(wanted[..n], j);
      SortedMeans(TicketIds(wanted), i, n);
    }
  }

  /** What a normalised basket looks like to its locks. */
  lemma {:induction false} NormalShape(items: seq<DraftItem>)
    requires Normalized(items).Ok?
    ensures var wanted := Normalized(items).value;
            && wanted != [] && StrictlySorted(TicketIds(wanted))
            && forall k | 0 <= k < |wanted| && wanted[k].Seated() :: StrictlySorted(wanted[k].seatIds)
  {
    var wanted := Normalized(items).value;
    BasketTheorems.ShapeOfTheResult(items);
    forall k | 0 <= k < |wanted| && wanted[k].Seated()
      ensures StrictlySorted(wanted[k].seatIds)
    {
      assert BasketTheorems.RightLine(AskAll(items), wanted[k]);
    }
  }

  /** Normalisation puts every basket, whatever was asked, into the one order. */
  lemma {:induction false} CheckoutScriptRises(items: seq<DraftItem>, event: Option<string>, buyer: Option<int>)
    requires Normalized(items).Ok?
    ensures Rising(CheckoutScript(event, buyer, Normalized(items).value))
  {
    var wanted := Normalized(items).value;
    NormalShape(items);
    ItemsScriptAscends(wanted, |wanted|);
    TakeAll(wanted);
    forall k | 0 <= k < |ItemsScript(wanted)|
      ensures ItemsScript(wanted)[k].Layer() == 3
    {
      var _ := ItemsAreStock(wanted, k);
    }
    var manifest := if event.Some? then [Manifest(event.value, true)] else [];
    var account := if buyer.Some? then [Buyer(buyer.value)] else [];
    AscendingTogether(manifest + account, ItemsScript(wanted));
  }

  // ------------------------------------------------- counters, and the orders

  ghost function RowsOf(tiers: seq<string>): (r: seq<Lock>)
    ensures |r| == |tiers| && forall k | 0 <= k < |r| :: r[k] == TierRow(tiers[k])
  {
    seq(|tiers|, k requires 0 <= k < |tiers| => TierRow(tiers[k]))
  }

  /** Each tier is named after all those named before it, unless it was named already. */
  ghost predicate InTurn(tiers: seq<string>) {
    forall j, k | 0 <= j < k < |tiers| :: tiers[k] in tiers[..k] || Less(tiers[j], tiers[k])
  }

  lemma {:induction false} RowsAreTiers(tiers: seq<string>, k: nat)
    requires k < |tiers|
    ensures RowsOf(tiers)[k] in RowsOf(tiers)[..k] <==> tiers[k] in tiers[..k]
  {
    if RowsOf(tiers)[k] in RowsOf(tiers)[..k] {
      var j :| 0 <= j < k && RowsOf(tiers)[..k][j] == RowsOf(tiers)[k];
      assert tiers[..k][j] == tiers[k];
    }
    if tiers[k] in tiers[..k] {
      var j :| 0 <= j < k && tiers[..k][j] == tiers[k];
      assert RowsOf(tiers)[..k][j] == RowsOf(tiers)[k];
    }
  }

  lemma {:induction false} SortedIsInTurn(tiers: seq<string>)
    requires StrictlySorted(tiers)
    ensures InTurn(tiers)
  {
    forall j, k | 0 <= j < k < |tiers|
      ensures Less(tiers[j], tiers[k])
    {
      SortedMeans(tiers, j, k);
    }
  }

  /** Locks of lower layers, then counters in turn. */
  lemma {:induction false} RowsRiseAfter(first: seq<Lock>, tiers: seq<string>)
    requires InTurn(tiers)
    requires forall k | 0 <= k < |first| :: first[k].Layer() < 3
    ensures RisingFrom(first + RowsOf(tiers), |first|)
  {
    var script, n := first + RowsOf(tiers), |first|;
    forall j, k | 0 <= j < k < |script| && n <= k
      ensures script[k] in script[..k] || Before(script[j], script[k])
    {
      if n <= j {
        RowsAreTiers(tiers, k - n);
        assert script[..k] == first + RowsOf(tiers)[..k - n];
      }
    }
  }

  /** An order's tiers, in the order its lines are kept; several lines of a tier take its row once. */
  ghost function RowsScript(wanted: seq<DraftItem>): seq<Lock> { RowsOf(TicketIds(wanted)) }

  /** A cancellation, the expiry of one hold, a payment in time, a refund: the order's row, then its tiers. */
  ghost function MovingScript(order: nat, wanted: seq<DraftItem>): seq<Lock> {
    [OrderRow(order)] + RowsScript(wanted)
  }

  ghost function SeatsScript(wanted: seq<DraftItem>): seq<Lock> {
    if wanted == [] then [] else SeatsScript(wanted[..|wanted| - 1]) + SeatScript(wanted[|wanted| - 1])
  }

  /** A payment of a lapsed order: `reserveAll` asks for the chairs of every tier before the counter of any. */
  ghost function LateScript(order: nat, wanted: seq<DraftItem>): seq<Lock> {
    [OrderRow(order)] + SeatsScript(wanted) + RowsScript(wanted)
  }

  ghost function OrderRows(orders: seq<nat>): (r: seq<Lock>)
    ensures |r| == |orders| && forall k | 0 <= k < |r| :: r[k] == OrderRow(orders[k])
  {
    seq(|orders|, k requires 0 <= k < |orders| => OrderRow(orders[k]))
  }

  /** The tiers of several orders, order after order. */
  ghost function TiersOf(baskets: seq<seq<DraftItem>>): seq<string> {
    if baskets == [] then [] else TiersOf(baskets[..|baskets| - 1]) + TicketIds(baskets[|baskets| - 1])
  }

  /** A sweep claims its orders' rows, skipping locked ones, and then releases order after order. */
  ghost function SweepScript(orders: seq<nat>, baskets: seq<seq<DraftItem>>): seq<Lock> {
    OrderRows(orders) + RowsOf(TiersOf(baskets))
  }

  /** Redrawing an event's areas. */
  ghost function AreasScript(event: string, tiers: seq<string>): seq<Lock> {
    [Manifest(event, false)] + RowsOf(tiers)
  }

  lemma {:induction false} OnlyFirstSeats(wanted: seq<DraftItem>, n: nat)
    requires 0 < n <= |wanted| && forall k | 1 <= k < |wanted| :: !wanted[k].Seated()
    ensures SeatsScript(wanted[..n]) == SeatScript(wanted[0])
  {
    assert wanted[..n][..n - 1] == wanted[..n - 1];
    if n > 1 {
      OnlyFirstSeats(wanted, n - 1);
      assert SeatScript(wanted[n - 1]) == [];
      assert SeatScript(wanted[0]) + [] == SeatScript(wanted[0]);
    } else {
      assert SeatsScript([]) + SeatScript(wanted[0]) == SeatScript(wanted[0]);
    }
  }

  lemma {:induction false} RowsAscend(tiers: seq<string>)
    requires StrictlySorted(tiers)
    ensures Ascending(RowsOf(tiers))
  {
    forall j, k | 0 <= j < k < |tiers|
      ensures Before(RowsOf(tiers)[j], RowsOf(tiers)[k])
    {
      SortedMeans(tiers, j, k);
    }
  }

  lemma {:induction false} ChairsThenCounters(d: DraftItem, tiers: seq<string>)
    requires tiers != [] && tiers[0] == d.ticketId && StrictlySorted(tiers)
    requires d.Seated() ==> StrictlySorted(d.seatIds)
    ensures Ascending(SeatScript(d) + RowsOf(tiers))
  {
    ItemScriptAscends(d);
    RowsAscend(tiers);
    forall j, k | 0 <= j < |SeatScript(d)| && 0 <= k < |RowsOf(tiers)|
      ensures Before(SeatScript(d)[j], RowsOf(tiers)[k])
    {
      if k > 0 {
        SortedMeans(tiers, 0, k);
      }
    }
    AscendingTogether(SeatScript(d), RowsOf(tiers));
  }

  lemma {:induction false} LateRises(order: nat, wanted: seq<DraftItem>)
    requires wanted != [] && StrictlySorted(TicketIds(wanted))
    requires wanted[0].Seated() ==> StrictlySorted(wanted[0].seatIds)
    requires forall k | 1 <= k < |wanted| :: !wanted[k].Seated()
    ensures Rising(LateScript(order, wanted))
  {
    LateScriptIs(order, wanted);
    FirstTierRises(order, wanted[0], TicketIds(wanted));
  }

  lemma {:induction false} FirstTierRises(order: nat, d: DraftItem, tiers: seq<string>)
    requires tiers != [] && tiers[0] == d.ticketId && StrictlySorted(tiers)
    requires d.Seated() ==> StrictlySorted(d.seatIds)
    ensures Rising([OrderRow(order)] + SeatScript(d) + RowsOf(tiers))
  {
    ChairsThenCounters(d, tiers);
    RowThenStock(OrderRow(order), SeatScript(d), RowsOf(tiers));
  }

  lemma {:induction false} LateScriptIs(order: nat, wanted: seq<DraftItem>)
    requires wanted != [] && forall k | 1 <= k < |wanted| :: !wanted[k].Seated()
    ensures LateScript(order, wanted) == [OrderRow(order)] + SeatScript(wanted[0]) + RowsOf(TicketIds(wanted))
  {
    OnlyFirstSeats(wanted, |wanted|);
    TakeAll(wanted);
  }

  lemma {:induction false} RowThenStock(first: Lock, seats: seq<Lock>, rows: seq<Lock>)
    requires Ascending(seats + rows) && forall k | 0 <= k < |seats + rows| :: (seats + rows)[k].Layer() == 3
    requires first.Layer() < 3
    ensures Rising([first] + seats + rows)
  {
    AscendingTogether([first], seats + rows);
    assert [first] + seats + rows == [first] + (seats + rows);
  }

  // ------------------------------------------------------------ all together

  /** What a transaction is about. Baskets are what was asked for; their normal form is what is locked. */
  datatype Plan =
    | Checkout(manifest: Option<string>, buyer: Option<int>, items: seq<DraftItem>)
    | Moving(order: nat, items: seq<DraftItem>)
    | LateSettlement(order: nat, items: seq<DraftItem>)
    | Sweeping(orders: seq<nat>, baskets: seq<seq<DraftItem>>)
    | Areas(event: string, tiers: seq<string>)
    | EditingTier(tier: string)

  ghost predicate AllNormal(baskets: seq<seq<DraftItem>>) {
    forall k | 0 <= k < |baskets| :: Normalized(baskets[k]).Ok?
  }

  ghost function NormalForms(baskets: seq<seq<DraftItem>>): (r: seq<seq<DraftItem>>)
    requires AllNormal(baskets)
    ensures |r| == |baskets| && forall k | 0 <= k < |r| :: r[k] == Normalized(baskets[k]).value
  {
    seq(|baskets|, k requires 0 <= k < |baskets| => Normalized(baskets[k]).value)
  }

  /** Its orders exist: their baskets were accepted. */
  ghost predicate Sound(plan: Plan) {
    match plan
    case Checkout(_, _, items) => Normalized(items).Ok?
    case Moving(_, items) => Normalized(items).Ok?
    case LateSettlement(_, items) => Normalized(items).Ok?
    case Sweeping(_, baskets) => AllNormal(baskets)
    case Areas(_, tiers) => StrictlySorted(tiers)
    case EditingTier(_) => true
  }

  /** The transaction such a plan is, `got` locks into it. */
  ghost function Begun(plan: Plan, got: nat, done: bool): Transaction
    requires Sound(plan)
  {
    match plan
    case Checkout(manifest, buyer, items) => Transaction(CheckoutScript(manifest, buyer, Normalized(items).value), 0, got, done)
    case Moving(order, items) => Transaction(MovingScript(order, Normalized(items).value), 0, got, done)
    case LateSettlement(order, items) => Transaction(LateScript(order, Normalized(items).value), 0, got, done)
    case Sweeping(orders, baskets) => Transaction(SweepScript(orders, NormalForms(baskets)), |orders|, got, done)
    case Areas(event, tiers) => Transaction(AreasScript(event, tiers), 0, got, done)
    case EditingTier(tier) => Transaction([TierRow(tier)], 0, got, done)
  }

  /** Late settlements with chairs in the first tier at most, and sweeps whose orders name tiers in turn. */
  ghost predicate InOrder(plan: Plan)
    requires Sound(plan)
  {
    match plan
    case LateSettlement(_, items) => forall k | 1 <= k < |Normalized(items).value| :: !Normalized(items).value[k].Seated()
    case Sweeping(_, baskets) => InTurn(TiersOf(NormalForms(baskets)))
    case _ => true
  }

  lemma {:induction false} RowThenCounters(first: Lock, tiers: seq<string>)
    requires StrictlySorted(tiers) && first.Layer() < 3
    ensures Rising([first] + RowsOf(tiers))
  {
    RowsAscend(tiers);
    AscendingTogether([first], RowsOf(tiers));
  }

  lemma {:induction false} PlansRise(plan: Plan, got: nat, done: bool)
    requires Sound(plan) && InOrder(plan)
    ensures Begun(plan, got, done).Orderly()
  {
    match plan {
      case Checkout(manifest, buyer, items) => CheckoutScriptRises(items, manifest, buyer);
      case Moving(order, items) =>
        NormalShape(items);
        RowThenCounters(OrderRow(order), TicketIds(Normalized(items).value));
      case LateSettlement(order, items) =>
        NormalShape(items);
        LateRises(order, Normalized(items).value);
      case Sweeping(orders, baskets) => RowsRiseAfter(OrderRows(orders), TiersOf(NormalForms(baskets)));
      case Areas(event, tiers) => RowThenCounters(Manifest(event, false), tiers);
      case EditingTier(_) =>
    }
  }

  /**
   Any number of checkouts, cancellations, expiries, payments in time, refunds, edits and redrawn areas,
   with late settlements and sweeps that keep the order, each however far it got: one of the unfinished
   ones can advance.
   */
  lemma {:induction false} PlansNeverDeadlock(ts: seq<Transaction>, plans: seq<Plan>, unfinished: nat) returns (k: nat)
    requires Valid(ts) && |plans| == |ts|
    requires forall i | 0 <= i < |ts| ::
               Sound(plans[i]) && InOrder(plans[i]) && ts[i] == Begun(plans[i], ts[i].got, ts[i].done)
    requires unfinished < |ts| && !ts[unfinished].done
    ensures k < |ts| && CanAdvance(ts, k)
  {
    forall i | 0 <= i < |ts|
      ensures ts[i].Orderly()
    {
      PlansRise(plans[i], ts[i].got, ts[i].done);
    }
    k := NoCircularWait(ts, unfinished);
  }
}
