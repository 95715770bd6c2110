/**
 Exactly which transactions a checkout can trap: two transactions each waiting for a lock of the
 other, for ever.
 */
module LockTheorems {
  import opened Results
  import opened Text
  import opened Basket
  import opened BasketTheorems
  import opened Locks

  /** Neither is finished and neither can go on. */
  ghost predicate Stuck(ts: seq<Transaction>) {
    |ts| == 2 && Valid(ts) && !ts[0].done && !ts[1].done && !CanAdvance(ts, 0) && !CanAdvance(ts, 1)
  }

  ghost predicate TrapsWith(
      t: Transaction, event: Option<string>, buyer: Option<int>, items: seq<DraftItem>, turns: seq<nat>)
  {
    && Normalized(items).Ok?
    && Stuck(Played([Transaction(CheckoutScript(event, buyer, Normalized(items).value), 0, 0, false), t], turns))
  }

  /** Some checkout and some schedule end with it and `t` waiting for each other. */
  ghost predicate CanBeTrapped(t: Transaction) {
    exists event, buyer, items, turns :: TrapsWith(t, event, buyer, items, turns)
  }

  // ------------------------------------------------- what the order excludes

  lemma {:induction false} PlayingKeepsScripts(ts: seq<Transaction>, turns: seq<nat>)
    requires Valid(ts)
    ensures var end := Played(ts, turns);
            && Valid(end) && |end| == |ts|
            && forall i | 0 <= i < |ts| :: end[i].script == ts[i].script && end[i].free == ts[i].free
    decreases |turns|
  {
    if turns != [] {
      var k := turns[0];
      if k < |ts| && CanAdvance(ts, k) {
        PlayingKeepsScripts(ts[k := Advanced(ts[k])], turns[1..]);
      } else {
        PlayingKeepsScripts(ts, turns[1..]);
      }
    }
  }

  /** Whoever takes its locks in the one order is never trapped. */
  lemma {:induction false} OrderlyIsNeverTrapped(t: Transaction)
    requires t.Valid() && t.Orderly()
    ensures !CanBeTrapped(t)
  {
    forall event, buyer, items, turns
      ensures !TrapsWith(t, event, buyer, items, turns)
    {
      if Normalized(items).Ok? {
        NotTrappedWith(t, event, buyer, items, turns);
      }
    }
  }

  lemma {:induction false} NotTrappedWith(
      t: Transaction, event: Option<string>, buyer: Option<int>, items: seq<DraftItem>, turns: seq<nat>)
    requires t.Valid() && t.Orderly() && Normalized(items).Ok?
    ensures !TrapsWith(t, event, buyer, items, turns)
  {
    CheckoutScriptRises(items, event, buyer);
    NeverStuck(CheckoutScript(event, buyer, Normalized(items).value), t, turns);
  }

  lemma {:induction false} NeverStuck(c: seq<Lock>, t: Transaction, turns: seq<nat>)
    requires t.Valid() && t.Orderly() && Rising(c)
    ensures !Stuck(Played([Transaction(c, 0, 0, false), t], turns))
  {
    var start := [Transaction(c, 0, 0, false), t];
    PlayingKeepsScripts(start, turns);
    var end := Played(start, turns);
    if !end[0].done {
      assert end[0].Orderly() && end[1].Orderly();
      var k := NoCircularWait(end, 0);
    }
  }

  // -------------------------------------------------------- how a trap closes

  ghost function Repeat(k: nat, n: nat): (r: seq<nat>)
    ensures |r| == n && forall i | 0 <= i < n :: r[i] == k
  {
    seq(n, _ => k)
  }

  lemma {:induction false} PlayedOn(ts: seq<Transaction>, a: seq<nat>, b: seq<nat>)
    ensures Played(ts, a + b) == Played(Played(ts, a), b)
    decreases |a|
  {
    if a == [] {
      assert a + b == b;
    } else {
      assert (a + b)[0] == a[0] && (a + b)[1..] == a[1..] + b;
      var k := a[0];
      if Valid(ts) && k < |ts| && CanAdvance(ts, k) {
        PlayedOn(ts[k := Advanced(ts[k])], a[1..], b);
      } else {
        PlayedOn(ts, a[1..], b);
      }
    }
  }

  /** With nobody in the way it takes its next locks one after the other. */
  lemma {:induction false} TakesAlone(ts: seq<Transaction>, k: nat, n: nat)
    requires Valid(ts) && k < |ts| && !ts[k].done && ts[k].got + n <= |ts[k].script|
    requires forall m, j | ts[k].got <= m < ts[k].got + n && 0 <= j < |ts| && j != k :: !ts[j].Blocks(ts[k].script[m])
    ensures Played(ts, Repeat(k, n)) == ts[k := ts[k].(got := ts[k].got + n)]
    decreases n
  {
    if n == 0 {
      assert Repeat(k, 0) == [] && ts[k := ts[k]] == ts;
    } else {
      assert CanAdvance(ts, k);
      var next := ts[k := Advanced(ts[k])];
      assert Repeat(k, n)[0] == k && Repeat(k, n)[1..] == Repeat(k, n - 1);
      TakesAlone(next, k, n - 1);
      assert next[k := next[k].(got := next[k].got + (n - 1))] == ts[k := ts[k].(got := ts[k].got + n)];
    }
  }

  /** Two scripts in which each comes to want what the other already has. */
  lemma {:induction false} CrossedScripts(c: seq<Lock>, p: nat, t: Transaction, q: nat) returns (turns: seq<nat>)
    requires p < |c| && t.Valid() && !t.done && t.got <= q < |t.script|
    requires c[p] !in c[..p] && t.script[q] !in t.script[..q]
    requires c[p] in t.script[..q] && t.script[q] in c[..p] && c[p].Layer() == t.script[q].Layer() == 3
    requires forall i, m | 0 <= i < p && 0 <= m < q :: !Clash(t.script[m], c[i]) && !Clash(c[i], t.script[m])
    ensures Stuck(Played([Transaction(c, 0, 0, false), t], turns))
  {
    var start := [Transaction(c, 0, 0, false), t];
    var one := start[0 := Transaction(c, 0, p, false)];
    var two := one[1 := t.(got := q)];
    turns := Repeat(0, p) + Repeat(1, q - t.got);
    TakesAlone(start, 0, p);
    TakesAlone(one, 1, q - t.got);
    PlayedOn(start, Repeat(0, p), Repeat(1, q - t.got));
    EachHasWhatTheOtherWants(two);
  }

  lemma {:induction false} EachHasWhatTheOtherWants(ts: seq<Transaction>)
    requires |ts| == 2 && Valid(ts) && ts[0].Wants() && ts[1].Wants()
    requires ts[0].script[ts[0].got] in ts[1].script[..ts[1].got]
    requires ts[1].script[ts[1].got] in ts[0].script[..ts[0].got]
    requires !ts[0].script[ts[0].got].Manifest? && !ts[1].script[ts[1].got].Manifest?
    ensures Stuck(ts)
  {
    var x, y := ts[0].script[ts[0].got], ts[1].script[ts[1].got];
    var i :| 0 <= i < ts[1].got && ts[1].script[..ts[1].got][i] == x;
    var j :| 0 <= j < ts[0].got && ts[0].script[..ts[0].got][j] == y;
    assert Clash(ts[1].script[i], x) && Clash(ts[0].script[j], y);
    assert Waits(ts, 0, 1) && Waits(ts, 1, 0);
  }

  // --------------------------------------------------------- two-line baskets

  /** One ticket of the tier a line is for: a chair if the line named chairs, a count if it did not. */
  ghost function OneOf(d: DraftItem, chair: string): DraftItem {
    DraftItem(d.ticketId, 1, if d.Seated() then [chair] else [])
  }

  /** What every line of a normalised basket is. */
  lemma {:induction false} NormalParts(items: seq<DraftItem>, k: nat)
    requires Normalized(items).Ok? && k < |Normalized(items).value|
    ensures var d := Normalized(items).value[k];
            && d.ticketId != "" && Trimmed(d.ticketId)
            && forall j | 0 <= j < |d.seatIds| :: d.seatIds[j] != "" && Trimmed(d.seatIds[j])
  {
    var out := Normalized(items).value;
    var d := out[k];
    AskedAgain(items, k);
    NormalShape(items);
    ShapeOfTheResult(items);
    assert RightLine(AskAll(items), d);
    assert Ask(d) == AskAll(out)[k];
    forall j | 0 <= j < |d.seatIds|
      ensures d.seatIds[j] != "" && Trimmed(d.seatIds[j])
    {
      ElemsAreMembers(d.seatIds, d.seatIds[j]);
      assert d.seatIds[j] in SeatSet(d.seatIds);
    }
  }

  /** A line's tier and a chair that could be one of it. */
  ghost predicate Buyable(d: DraftItem, chair: string) {
    d.ticketId != "" && Trimmed(d.ticketId) && chair != "" && Trimmed(chair)
  }

  lemma {:induction false} TwoLinesAreNormal(a: DraftItem, x: string, b: DraftItem, y: string)
    requires Buyable(a, x) && Buyable(b, y) && Less(a.ticketId, b.ticketId)
    ensures Normalized([OneOf(a, x), OneOf(b, y)]) == Ok([OneOf(a, x), OneOf(b, y)])
  {
    var out := [OneOf(a, x), OneOf(b, y)];
    assert out[..1] == [out[0]] && out[..1][..0] == [];
    assert Total([out[0]]) == 1 && Total(out) == 2;
    assert NormalLine(out[0]) && NormalLine(out[1]);
    NormalFormsStand(out);
  }

  lemma {:induction false} TwoLineScript(a: DraftItem, x: string, b: DraftItem, y: string)
    ensures CheckoutScript(None, None, [OneOf(a, x), OneOf(b, y)]) == ItemScript(OneOf(a, x)) + ItemScript(OneOf(b, y))
  {
    var out := [OneOf(a, x), OneOf(b, y)];
    assert out[..1] == [out[0]] && [out[0]][..0] == [];
    assert ItemsScript([out[0]]) == [] + ItemScript(out[0]);
    assert ItemsScript(out) == ItemScript(out[0]) + ItemScript(out[1]);
  }

  lemma {:induction false} OneOfScript(d: DraftItem, chair: string)
    ensures ItemScript(OneOf(d, chair))
            == if d.Seated() then [Seat(d.ticketId, chair), TierRow(d.ticketId)] else [TierRow(d.ticketId)]
  {
  }

  lemma {:induction false} TrappedByTwoLines(t: Transaction, a: DraftItem, x: string, b: DraftItem, y: string, turns: seq<nat>)
    requires Buyable(a, x) && Buyable(b, y) && Less(a.ticketId, b.ticketId)
    requires Stuck(Played([Transaction(ItemScript(OneOf(a, x)) + ItemScript(OneOf(b, y)), 0, 0, false), t], turns))
    ensures CanBeTrapped(t)
  {
    TwoLinesAreNormal(a, x, b, y);
    TwoLineScript(a, x, b, y);
    assert TrapsWith(t, None, None, [OneOf(a, x), OneOf(b, y)], turns);
  }

  // -------------------------------------------------------- late settlements

  ghost function Longest(ids: seq<string>): nat {
    if ids == [] then 0
    else
      var before := Longest(ids[..|ids| - 1]);
      if |ids[|ids| - 1]| > before then |ids[|ids| - 1]| else before
  }

  lemma {:induction false} NoneIsLonger(ids: seq<string>, k: nat)
    requires k < |ids|
    ensures |ids[k]| <= Longest(ids)
  {
    if k < |ids| - 1 {
      NoneIsLonger(ids[..|ids| - 1], k);
    }
  }

  /** A chair id that is none of these. */
  ghost function Another(ids: seq<string>): (id: string)
    ensures id != "" && Trimmed(id) && id !in ids
  {
    var id := seq(Longest(ids) + 1, _ => 'x');
    assert id !in ids by {
      forall k | 0 <= k < |ids|
        ensures ids[k] != id
      {
        NoneIsLonger(ids, k);
      }
    }
    id
  }

  lemma {:induction false} SeatsAreOfLines(wanted: seq<DraftItem>, m: nat) returns (k: nat, j: nat)
    requires m < |SeatsScript(wanted)|
    ensures k < |wanted| && j < |wanted[k].seatIds| && SeatsScript(wanted)[m] == Seat(wanted[k].ticketId, wanted[k].seatIds[j])
  {
    var n := |wanted| - 1;
    var before := SeatsScript(wanted[..n]);
    if m < |before| {
      k, j := SeatsAreOfLines(wanted[..n], m);
    } else {
      k, j := n, m - |before|;
    }
  }

  lemma {:induction false} LinesAreInSeats(wanted: seq<DraftItem>, k: nat, j: nat)
    requires k < |wanted| && j < |wanted[k].seatIds|
    ensures Seat(wanted[k].ticketId, wanted[k].seatIds[j]) in SeatsScript(wanted)
  {
    var n := |wanted| - 1;
    if k < n {
      LinesAreInSeats(wanted[..n], k, j);
    } else {
      assert SeatScript(wanted[n])[j] in SeatScript(wanted[n]);
    }
  }

  /** Another chair of the first tier is not among those a settlement asks for. */
  lemma {:induction false} AnotherIsNotAsked(wanted: seq<DraftItem>)
    requires wanted != [] && StrictlySorted(TicketIds(wanted))
    ensures Seat(wanted[0].ticketId, Another(wanted[0].seatIds)) !in SeatsScript(wanted)
  {
    forall m | 0 <= m < |SeatsScript(wanted)|
      ensures SeatsScript(wanted)[m] != Seat(wanted[0].ticketId, Another(wanted[0].seatIds))
    {
      var k, j := SeatsAreOfLines(wanted, m);
      if k > 0 {
        SortedMeans(TicketIds(wanted), 0, k);
        LessIrreflexive(wanted[0].ticketId);
      }
    }
  }

  /**
   The checkout takes the first tier's row; the settlement, all its chairs; then each wants what the
   other has.
   */
  lemma {:induction false} LateTrap(order: nat, wanted: seq<DraftItem>, m: nat) returns (turns: seq<nat>)
    requires 1 <= m < |wanted| && wanted[m].Seated() && StrictlySorted(TicketIds(wanted))
    ensures var c := ItemScript(OneOf(wanted[0], Another(wanted[0].seatIds))) + ItemScript(OneOf(wanted[m], wanted[m].seatIds[0]));
            Stuck(Played([Transaction(c, 0, 0, false), Transaction(LateScript(order, wanted), 0, 0, false)], turns))
  {
    var x, y := Another(wanted[0].seatIds), wanted[m].seatIds[0];
    var first, second := ItemScript(OneOf(wanted[0], x)), ItemScript(OneOf(wanted[m], y));
    var seats, script := SeatsScript(wanted), LateScript(order, wanted);
    OneOfScript(wanted[0], x);
    OneOfScript(wanted[m], y);
    SortedMeans(TicketIds(wanted), 0, m);
    LessIrreflexive(wanted[0].ticketId);
    LinesAreInSeats(wanted, m, 0);
    AnotherIsNotAsked(wanted);
    SeatsAreSeats(wanted);
    turns := LateCrossing(order, wanted[0].ticketId, x, wanted[m].ticketId, y, first, second, seats, RowsScript(wanted));
  }

  lemma {:induction false} SeatsAreSeats(wanted: seq<DraftItem>)
    ensures forall m | 0 <= m < |SeatsScript(wanted)| :: SeatsScript(wanted)[m].Seat?
  {
    forall m | 0 <= m < |SeatsScript(wanted)|
      ensures SeatsScript(wanted)[m].Seat?
    {
      var k, j := SeatsAreOfLines(wanted, m);
    }
  }

  lemma {:induction false} LateCrossing(
      order: nat, a: string, x: string, b: string, y: string,
      first: seq<Lock>, second: seq<Lock>, seats: seq<Lock>, rows: seq<Lock>) returns (turns: seq<nat>)
    requires first == [TierRow(a)] || first == [Seat(a, x), TierRow(a)]
    requires second == [Seat(b, y), TierRow(b)] && a != b
    requires Seat(b, y) in seats && Seat(a, x) !in seats && rows != [] && rows[0] == TierRow(a)
    requires forall m | 0 <= m < |seats| :: seats[m].Seat?
    ensures Stuck(Played([Transaction(first + second, 0, 0, false),
                          Transaction([OrderRow(order)] + seats + rows, 0, 0, false)], turns))
  {
    var c, p := first + second, |first|;
    var late, q := [OrderRow(order)] + seats + rows, 1 + |seats|;
    assert c[..p] == first && c[p] == Seat(b, y);
    assert late[..q] == [OrderRow(order)] + seats && late[q] == TierRow(a);
    assert first[|first| - 1] == TierRow(a);
    turns := CrossedScripts(c, p, Transaction(late, 0, 0, false), q);
  }

  /**
   A settlement of a lapsed order can be trapped by a checkout if and only if the order has chairs in a
   tier that is not its first.
   */
  lemma {:induction false} LateSettlementIsTrappedExactly(items: seq<DraftItem>, order: nat)
    requires Normalized(items).Ok?
    ensures CanBeTrapped(Transaction(LateScript(order, Normalized(items).value), 0, 0, false))
       <==> exists k :: 1 <= k < |Normalized(items).value| && Normalized(items).value[k].Seated()
  {
    var wanted := Normalized(items).value;
    NormalShape(items);
    if k :| 1 <= k < |wanted| && wanted[k].Seated() {
      LateTrapIsReal(items, order, k);
    } else {
      LateRises(order, wanted);
      OrderlyIsNeverTrapped(Transaction(LateScript(order, wanted), 0, 0, false));
    }
  }

  lemma {:induction false} LateTrapIsReal(items: seq<DraftItem>, order: nat, m: nat)
    requires Normalized(items).Ok? && 1 <= m < |Normalized(items).value| && Normalized(items).value[m].Seated()
    ensures CanBeTrapped(Transaction(LateScript(order, Normalized(items).value), 0, 0, false))
  {
    var wanted := Normalized(items).value;
    NormalShape(items);
    NormalParts(items, 0);
    NormalParts(items, m);
    SortedMeans(TicketIds(wanted), 0, m);
    var x, y := Another(wanted[0].seatIds), wanted[m].seatIds[0];
    var turns := LateTrap(order, wanted, m);
    TrappedByTwoLines(Transaction(LateScript(order, wanted), 0, 0, false), wanted[0], x, wanted[m], y, turns);
  }

  // ------------------------------------------------------------------ sweeps

  lemma {:induction false} TierComesFromALine(baskets: seq<seq<DraftItem>>, n: nat) returns (i: nat, m: nat)
    requires n < |TiersOf(baskets)|
    ensures i < |baskets| && m < |baskets[i]| && TiersOf(baskets)[n] == baskets[i][m].ticketId
  {
    var last := |baskets| - 1;
    var before := TiersOf(baskets[..last]);
    if n < |before| {
      i, m := TierComesFromALine(baskets[..last], n);
    } else {
      i, m := last, n - |before|;
    }
  }

  /** Released later, but before in the order: a checkout has it and wants the earlier released one. */
  lemma {:induction false} SweepCrossing(orders: seq<nat>, tiers: seq<string>, j: nat, k: nat, a: DraftItem, b: DraftItem)
    returns (turns: seq<nat>)
    requires j < k < |tiers| && tiers[k] !in tiers[..k]
    requires a.ticketId == tiers[k] && b.ticketId == tiers[j]
    ensures var c := ItemScript(OneOf(a, "x")) + ItemScript(OneOf(b, "x"));
            Stuck(Played([Transaction(c, 0, 0, false),
                          Transaction(OrderRows(orders) + RowsOf(tiers), |orders|, |orders|, false)], turns))
  {
    RowsAreTiers(tiers, k);
    CheckoutHas(a, b);
    assert tiers[..k][j] == tiers[j];
    turns := RowsCrossing(OrderRows(orders), RowsOf(tiers), j, k, ItemScript(OneOf(a, "x")) + ItemScript(OneOf(b, "x")));
  }

  lemma {:induction false} RowsCrossing(first: seq<Lock>, rows: seq<Lock>, j: nat, k: nat, c: seq<Lock>) returns (turns: seq<nat>)
    requires j < k < |rows| && rows[k] !in rows[..k] && c != [] && c[|c| - 1] == rows[j]
    requires forall m | 0 <= m < |first| :: first[m].OrderRow?
    requires forall m | 0 <= m < |rows| :: rows[m].TierRow?
    requires rows[k] in c[..|c| - 1] && rows[j] !in c[..|c| - 1]
    requires forall i | 0 <= i < |c| - 1 :: c[i].Seat? || c[i] == rows[k]
    ensures Stuck(Played([Transaction(c, 0, 0, false), Transaction(first + rows, |first|, |first|, false)], turns))
  {
    var p, script, q := |c| - 1, first + rows, |first| + k;
    assert script[..q] == first + rows[..k];
    assert rows[..k][j] == rows[j];
    forall i, m | 0 <= i < p && 0 <= m < q
      ensures !Clash(script[m], c[i]) && !Clash(c[i], script[m])
    {
      if m >= |first| {
        assert rows[..k][m - |first|] == script[m];
      }
    }
    turns := CrossedScripts(c, p, Transaction(script, |first|, |first|, false), q);
  }

  lemma {:induction false} CheckoutHas(a: DraftItem, b: DraftItem)
    requires a.ticketId != b.ticketId
    ensures var c := ItemScript(OneOf(a, "x")) + ItemScript(OneOf(b, "x"));
            && c != [] && c[|c| - 1] == TierRow(b.ticketId)
            && TierRow(a.ticketId) in c[..|c| - 1] && TierRow(b.ticketId) !in c[..|c| - 1]
            && forall i | 0 <= i < |c| - 1 :: c[i].Seat? || c[i] == TierRow(a.ticketId)
  {
    OneOfScript(a, "x");
    OneOfScript(b, "x");
    RowsLast(Seat(a.ticketId, "x"), TierRow(a.ticketId), Seat(b.ticketId, "x"), TierRow(b.ticketId),
             ItemScript(OneOf(a, "x")), ItemScript(OneOf(b, "x")));
  }

  lemma {:induction false} RowsLast(s: Lock, x: Lock, t: Lock, y: Lock, first: seq<Lock>, second: seq<Lock>)
    requires s.Seat? && t.Seat? && x.TierRow? && y.TierRow? && x != y
    requires first == [x] || first == [s, x]
    requires second == [y] || second == [t, y]
    ensures var c := first + second;
            && c != [] && c[|c| - 1] == y && x in c[..|c| - 1] && y !in c[..|c| - 1]
            && forall i | 0 <= i < |c| - 1 :: c[i].Seat? || c[i] == x
  {
    var c := first + second;
    assert c[..|c| - 1][|first| - 1] == x;
  }

  /**
   A sweep of these orders can be trapped by a checkout if and only if some order names a tier, for the
   first time in the sweep, after one that comes later in the order.
   */
  lemma {:induction false} SweepIsTrappedExactly(orders: seq<nat>, baskets: seq<seq<DraftItem>>)
    requires AllNormal(baskets)
    ensures CanBeTrapped(Transaction(SweepScript(orders, NormalForms(baskets)), |orders|, |orders|, false))
       <==> !InTurn(TiersOf(NormalForms(baskets)))
  {
    var tiers := TiersOf(NormalForms(baskets));
    if InTurn(tiers) {
      RowsRiseAfter(OrderRows(orders), tiers);
      OrderlyIsNeverTrapped(Transaction(SweepScript(orders, NormalForms(baskets)), |orders|, |orders|, false));
    } else {
      var j, k :| 0 <= j < k < |tiers| && !(tiers[k] in tiers[..k] || Less(tiers[j], tiers[k]));
      SweepTrapIsReal(orders, baskets, j, k);
    }
  }

  lemma {:induction false} SweepTrapIsReal(orders: seq<nat>, baskets: seq<seq<DraftItem>>, j: nat, k: nat)
    requires AllNormal(baskets) && j < k < |TiersOf(NormalForms(baskets))|
    requires var tiers := TiersOf(NormalForms(baskets)); tiers[k] !in tiers[..k] && !Less(tiers[j], tiers[k])
    ensures CanBeTrapped(Transaction(SweepScript(orders, NormalForms(baskets)), |orders|, |orders|, false))
  {
    var a := BuyableLine(baskets, k);
    var b := BuyableLine(baskets, j);
    SweptTiersTrap(orders, TiersOf(NormalForms(baskets)), j, k, a, b);
  }

  lemma {:induction false} BuyableLine(baskets: seq<seq<DraftItem>>, n: nat) returns (d: DraftItem)
    requires AllNormal(baskets) && n < |TiersOf(NormalForms(baskets))|
    ensures Buyable(d, "x") && d.ticketId == TiersOf(NormalForms(baskets))[n]
  {
    var i, m := TierComesFromALine(NormalForms(baskets), n);
    NormalParts(baskets[i], m);
    d := NormalForms(baskets)[i][m];
  }

  lemma {:induction false} SweptTiersTrap(orders: seq<nat>, tiers: seq<string>, j: nat, k: nat, a: DraftItem, b: DraftItem)
    requires j < k < |tiers| && tiers[k] !in tiers[..k] && !Less(tiers[j], tiers[k])
    requires Buyable(a, "x") && Buyable(b, "x") && a.ticketId == tiers[k] && b.ticketId == tiers[j]
    ensures CanBeTrapped(Transaction(OrderRows(orders) + RowsOf(tiers), |orders|, |orders|, false))
  {
    assert tiers[..k][j] == tiers[j];
    LessTotal(tiers[j], tiers[k]);
    var turns := SweepCrossing(orders, tiers, j, k, a, b);
    TrappedByTwoLines(Transaction(OrderRows(orders) + RowsOf(tiers), |orders|, |orders|, false), a, "x", b, "x", turns);
  }

  // ----------------------------------------- when no two orders share a tier

  ghost predicate NoRepeats(tiers: seq<string>) {
    forall k | 0 <= k < |tiers| :: tiers[k] !in tiers[..k]
  }

  /** Each order's last tier comes before the next order's first. */
  ghost predicate OneAfterTheOther(baskets: seq<seq<DraftItem>>)
    requires forall i | 0 <= i < |baskets| :: baskets[i] != []
  {
    forall i | 0 < i < |baskets| :: Follows(baskets[i - 1], baskets[i])
  }

  ghost predicate Follows(a: seq<DraftItem>, b: seq<DraftItem>)
    requires a != [] && b != []
  {
    Less(a[|a| - 1].ticketId, b[0].ticketId)
  }

  /** Where an order's tiers stand among all of them. */
  lemma {:induction false} WhereTiersAre(baskets: seq<seq<DraftItem>>, i: nat)
    requires i < |baskets|
    ensures |TiersOf(baskets[..i + 1])| == |TiersOf(baskets[..i])| + |baskets[i]|
    ensures TiersOf(baskets[..i + 1]) <= TiersOf(baskets)
    ensures forall m | 0 <= m < |baskets[i]| :: TiersOf(baskets[..i + 1])[|TiersOf(baskets[..i])| + m] == baskets[i][m].ticketId
    decreases |baskets|
  {
    var n := |baskets| - 1;
    assert baskets[..i + 1][..i] == baskets[..i];
    if i < n {
      WhereTiersAre(baskets[..n], i);
      assert baskets[..n][..i + 1] == baskets[..i + 1] && baskets[..n][..i] == baskets[..i];
    } else {
      assert baskets[..i + 1] == baskets;
    }
  }

  lemma {:induction false} InTurnMeansFollows(baskets: seq<seq<DraftItem>>, i: nat)
    requires forall k | 0 <= k < |baskets| :: baskets[k] != []
    requires 0 < i < |baskets| && InTurn(TiersOf(baskets)) && NoRepeats(TiersOf(baskets))
    ensures Follows(baskets[i - 1], baskets[i])
  {
    WhereTiersAre(baskets, i - 1);
    WhereTiersAre(baskets, i);
    var tiers, n := TiersOf(baskets), |TiersOf(baskets[..i])|;
    assert tiers[n] == baskets[i][0].ticketId;
    assert tiers[n - 1] == baskets[i - 1][|baskets[i - 1]| - 1].ticketId;
    assert tiers[n] !in tiers[..n];
  }

  lemma {:induction false} FollowingClimbs(baskets: seq<seq<DraftItem>>)
    requires forall k | 0 <= k < |baskets| :: baskets[k] != [] && StrictlySorted(TicketIds(baskets[k]))
    requires OneAfterTheOther(baskets)
    ensures StrictlySorted(TiersOf(baskets))
    ensures baskets != [] ==>
              var last := baskets[|baskets| - 1];
              TiersOf(baskets) != [] && TiersOf(baskets)[|TiersOf(baskets)| - 1] == last[|last| - 1].ticketId
  {
    if baskets != [] {
      var n := |baskets| - 1;
      forall i | 0 < i < n
        ensures Follows(baskets[..n][i - 1], baskets[..n][i])
      {
        assert Follows(baskets[i - 1], baskets[i]);
      }
      FollowingClimbs(baskets[..n]);
      if n > 0 {
        assert Follows(baskets[n - 1], baskets[n]);
      }
      SortedTogether(TiersOf(baskets[..n]), TicketIds(baskets[n]));
    }
  }

  lemma {:induction false} SortedTogether(a: seq<string>, b: seq<string>)
    requires StrictlySorted(a) && StrictlySorted(b)
    requires a != [] && b != [] ==> Less(a[|a| - 1], b[0])
    ensures StrictlySorted(a + b)
    decreases |b|
  {
    if b == [] {
      assert a + b == a;
    } else {
      SortedTogether(a, b[..|b| - 1]);
      assert (a + b)[..|a + b| - 1] == a + b[..|b| - 1];
    }
  }

  /** Orders that share no tier are swept safely exactly when each one's tiers all precede the next one's. */
  lemma {:induction false} ApartMeansOneAfterTheOther(baskets: seq<seq<DraftItem>>)
    requires forall k | 0 <= k < |baskets| :: baskets[k] != [] && StrictlySorted(TicketIds(baskets[k]))
    requires NoRepeats(TiersOf(baskets))
    ensures InTurn(TiersOf(baskets)) <==> OneAfterTheOther(baskets)
  {
    if OneAfterTheOther(baskets) {
      FollowingClimbs(baskets);
      SortedIsInTurn(TiersOf(baskets));
    }
    if InTurn(TiersOf(baskets)) {
      forall i | 0 < i < |baskets|
        ensures Follows(baskets[i - 1], baskets[i])
      {
        InTurnMeansFollows(baskets, i);
      }
    }
  }

  /** Sharing is no fault in itself: two orders of one tier are swept safely, though neither's follows the other's. */
  lemma {:induction false} ASharedTierIsNoTrap(items: seq<DraftItem>, x: nat, y: nat)
    requires Normalized(items).Ok? && |Normalized(items).value| == 1
    ensures var forms := NormalForms([items, items]);
            && !OneAfterTheOther(forms)
            && !CanBeTrapped(Transaction(SweepScript([x, y], forms), 2, 2, false))
  {
    var d := Normalized(items).value;
    assert NormalForms([items, items]) == [d, d];
    TwiceTheSame(d);
    SweepInTurn([x, y], [items, items]);
  }

  lemma {:induction false} SweepInTurn(orders: seq<nat>, baskets: seq<seq<DraftItem>>)
    requires AllNormal(baskets) && InTurn(TiersOf(NormalForms(baskets))) && |orders| == 2
    ensures !CanBeTrapped(Transaction(SweepScript(orders, NormalForms(baskets)), 2, 2, false))
  {
    SweepIsTrappedExactly(orders, baskets);
  }

  lemma {:induction false} TwiceTheSame(d: seq<DraftItem>)
    requires |d| == 1
    ensures !OneAfterTheOther([d, d]) && InTurn(TiersOf([d, d]))
  {
    assert [d, d][..1] == [d] && TiersOf([]) == [];
    assert TiersOf([d]) == TicketIds(d);
    LessIrreflexive(d[0].ticketId);
    assert !Follows([d, d][0], [d, d][1]);
    assert TiersOf([d, d]) == [d[0].ticketId, d[0].ticketId];
  }
}
