/** How the loops over an order's lines and the chair statements add up to one order changing hands. */
module StockMoves {
  import opened Results
  import opened Text
  import opened Orders
  import opened Tickets
  import opened Basket
  import opened Sales
  import opened SalesInvariant
  import opened SalesSteps

  // ------------------------------------------------------------------- stock

  /** Every tier moved by what the lines ask of it. */
  function MovedAll(tiers: map<string, Tier>, move: Move, lines: seq<Line>): map<string, Tier> {
    map t | t in tiers :: tiers[t].Moved(move, Demand(lines, t))
  }

  ghost predicate Positive(lines: seq<Line>) {
    forall k | 0 <= k < |lines| :: lines[k].quantity >= 1
  }

  /** Each tier named has what the lines would move. */
  ghost predicate Covers(tiers: map<string, Tier>, move: Move, lines: seq<Line>) {
    forall k | 0 <= k < |lines| ::
      lines[k].tier in tiers && tiers[lines[k].tier].Allows(move, Demand(lines, lines[k].tier))
  }

  lemma {:induction false} MovedNothing(tiers: map<string, Tier>, move: Move)
    ensures MovedAll(tiers, move, []) == tiers
  {
  }

  /** One more line moved. */
  lemma {:induction false} MovedNext(tiers: map<string, Tier>, move: Move, lines: seq<Line>, k: nat)
    requires k < |lines| && lines[k].tier in tiers
    ensures var t := lines[k].tier;
            var before := MovedAll(tiers, move, lines[..k]);
            MovedAll(tiers, move, lines[..k + 1]) == before[t := before[t].Moved(move, lines[k].quantity)]
  {
    assert lines[..k + 1][..k] == lines[..k];
  }

  /** A line finds what it needs, whatever the lines before it moved. */
  lemma {:induction false} MoveIsAllowed(tiers: map<string, Tier>, move: Move, lines: seq<Line>, k: nat)
    requires Positive(lines) && k < |lines| && Covers(tiers, move, lines) && !move.Take?
    ensures MovedAll(tiers, move, lines[..k])[lines[k].tier].Allows(move, lines[k].quantity)
  {
    LineWithinDemand(lines, k);
  }

  /** Giving back what was taken. */
  lemma {:induction false} MovedBack(tiers: map<string, Tier>, lines: seq<Line>)
    ensures MovedAll(MovedAll(tiers, Take, lines), GiveBack, lines) == tiers
  {
  }

  /** What was just taken can be given back or sold, even if the counters were off before. */
  lemma {:induction false} TakenIsCovered(tiers: map<string, Tier>, move: Move, lines: seq<Line>)
    requires move.GiveBack? || move.Sell?
    requires forall k | 0 <= k < |lines| :: lines[k].tier in tiers && tiers[lines[k].tier].reserved >= 0
    ensures Covers(MovedAll(tiers, Take, lines), move, lines)
  {
  }

  // --------------------------------------------------------- taking line by line

  /** The lines so far could all be taken, each tier being asked for its running sum. */
  ghost predicate RoomSoFar(tiers: map<string, Tier>, lines: seq<Line>, k: nat)
    requires k <= |lines|
  {
    forall j | 0 <= j < k :: lines[j].tier in tiers && tiers[lines[j].tier].CanTake(Demand(lines[..k], lines[j].tier))
  }

  lemma {:induction false} RoomForOneMore(tiers: map<string, Tier>, lines: seq<Line>, k: nat)
    requires k < |lines| && RoomSoFar(tiers, lines, k)
    requires lines[k].tier in tiers
    requires MovedAll(tiers, Take, lines[..k])[lines[k].tier].CanTake(lines[k].quantity)
    ensures RoomSoFar(tiers, lines, k + 1)
  {
    assert lines[..k + 1][..k] == lines[..k];
    assert tiers[lines[k].tier].CanTake(Demand(lines[..k + 1], lines[k].tier));
    forall j | 0 <= j < k + 1
      ensures lines[j].tier in tiers && tiers[lines[j].tier].CanTake(Demand(lines[..k + 1], lines[j].tier))
    {
    }
  }

  lemma {:induction false} RoomForAll(tiers: map<string, Tier>, lines: seq<Line>)
    requires RoomSoFar(tiers, lines, |lines|)
    ensures Room(tiers, lines)
  {
    TakeAll(lines);
  }

  /** A line that cannot be taken after the ones before it means the basket as a whole cannot. */
  lemma {:induction false} NoRoomForOneMore(tiers: map<string, Tier>, lines: seq<Line>, k: nat)
    requires k < |lines| && Positive(lines)
    requires lines[k].tier in tiers ==> !MovedAll(tiers, Take, lines[..k])[lines[k].tier].CanTake(lines[k].quantity)
    ensures !Room(tiers, lines)
  {
    LineWithinDemand(lines, k);
    if lines[k].tier in tiers {
      assert !tiers[lines[k].tier].CanTake(Demand(lines, lines[k].tier));
    }
  }

  // ------------------------------------------------------------------- chairs

  /** One conditional claim: whichever of the ids are free, of that tier and event. */
  function Claimed(chairs: map<string, Chair>, event: string, tier: string, ids: seq<string>, i: nat): map<string, Chair> {
    map c | c in chairs ::
      if c in ids && Claimable(chairs, event, tier, c) then chairs[c].(status := Held, order := Some(i)) else chairs[c]
  }

  /** Every free chair of a set, held for order `i`. */
  ghost function HeldFrom(chairs: map<string, Chair>, asked: set<string>, i: nat): map<string, Chair> {
    map c | c in chairs ::
      if c in asked && chairs[c].status.Available? then chairs[c].(status := Held, order := Some(i)) else chairs[c]
  }

  function Freed(chairs: map<string, Chair>, i: nat, status: ChairStatus): map<string, Chair> {
    map c | c in chairs ::
      if chairs[c].order == Some(i) && chairs[c].status == status
      then chairs[c].(status := Available, order := None) else chairs[c]
  }

  function Committed(chairs: map<string, Chair>, i: nat): map<string, Chair> {
    map c | c in chairs ::
      if chairs[c].order == Some(i) && chairs[c].status == Held then chairs[c].(status := Taken) else chairs[c]
  }

  function Marked(chairs: map<string, Chair>, event: string, ids: seq<string>, from: ChairStatus, to: ChairStatus)
    : map<string, Chair>
  {
    map c | c in chairs ::
      if chairs[c].event == event && chairs[c].status == from && c in ids then chairs[c].(status := to) else chairs[c]
  }

  /** Marking the normalised ids marks the ids that were named, trimmed and however often. */
  lemma {:induction false} MarkingIsWithholding(o: Office, event: string, ids: seq<string>)
    ensures o.(chairs := Marked(o.chairs, event, Listing(SeatSet(ids)), Available, Blocked)) == Withheld(o, event, ids)
  {
    ListedIsIn(SeatSet(ids));
  }

  lemma {:induction false} MarkingIsRestoring(o: Office, event: string, ids: seq<string>)
    ensures o.(chairs := Marked(o.chairs, event, Listing(SeatSet(ids)), Blocked, Available)) == Restored(o, event, ids)
  {
    ListedIsIn(SeatSet(ids));
  }

  lemma {:induction false} ListedIsIn(s: set<string>)
    ensures forall c :: c in Listing(s) <==> c in s
  {
    forall c
      ensures c in Listing(s) <==> c in s
    {
      ElemsAreMembers(Listing(s), c);
    }
  }

  /** The chairs an order names. */
  ghost function Seats(lines: seq<Line>): set<string> {
    set k | 0 <= k < |lines| && lines[k].seat.Some? :: lines[k].seat.value
  }

  lemma {:induction false} SeatsAreNamed(lines: seq<Line>, c: string)
    ensures c in Seats(lines) <==> Names(lines, c)
  {
  }

  lemma {:induction false} NothingToMint(lines: seq<Line>)
    requires Positive(lines) && TicketsIn(lines) == 0
    ensures Minted(lines) == []
  {
    if lines != [] {
      TicketsArePositive(lines[..|lines| - 1]);
    }
  }

  lemma {:induction false} TicketsArePositive(lines: seq<Line>)
    requires Positive(lines)
    ensures TicketsIn(lines) >= 0
  {
    if lines != [] {
      TicketsArePositive(lines[..|lines| - 1]);
    }
  }

  ghost predicate OfTheTier(chairs: map<string, Chair>, event: string, tier: string, ids: seq<string>) {
    forall k | 0 <= k < |ids| && ids[k] in chairs :: chairs[ids[k]].event == event && chairs[ids[k]].tier == tier
  }

  /** Claiming more ids of one tier extends what is held. */
  lemma {:induction false} ClaimExtends(
      chairs: map<string, Chair>, asked: set<string>, event: string, tier: string, ids: seq<string>, i: nat)
    requires OfTheTier(chairs, event, tier, ids)
    ensures Claimed(HeldFrom(chairs, asked, i), event, tier, ids, i) == HeldFrom(chairs, asked + Elems(ids), i)
  {
    var now := HeldFrom(chairs, asked, i);
    forall c | c in chairs
      ensures Claimed(now, event, tier, ids, i)[c] == HeldFrom(chairs, asked + Elems(ids), i)[c]
    {
      ElemsAreMembers(ids, c);
    }
  }

  lemma {:induction false} HeldNothing(chairs: map<string, Chair>, i: nat)
    ensures HeldFrom(chairs, {}, i) == chairs
  {
  }

  /** Nobody's chair can be order `i`'s, and order `i` holds none. */
  ghost predicate HoldsNone(chairs: map<string, Chair>, i: nat) {
    forall c | c in chairs ::
      && !(chairs[c].order == Some(i) && chairs[c].status.Held?)
      && (chairs[c].status.Available? ==> chairs[c].order.None?)
  }

  lemma {:induction false} FreedBack(chairs: map<string, Chair>, asked: set<string>, i: nat)
    requires HoldsNone(chairs, i)
    ensures Freed(HeldFrom(chairs, asked, i), i, Held) == chairs
  {
  }

  lemma {:induction false} OnlyPendingHolds(o: Office, i: nat)
    requires Seated(o) && (i < |o.orders| ==> !o.orders[i].status.HoldsStock())
    ensures HoldsNone(o.chairs, i)
  {
    forall c | c in o.chairs
      ensures !(o.chairs[c].order == Some(i) && o.chairs[c].status.Held?)
      ensures o.chairs[c].status.Available? ==> o.chairs[c].order.None?
    {
      assert ChairFits(o.orders, c, o.chairs[c]);
    }
  }

  // ------------------------------------------------- from statements to a step

  /** The counters after one order's lines moved are the counters retallied. */
  lemma {:induction false} MovingIsRetallying(tiers: map<string, Tier>, was: Row, row: Row)
    requires was.lines == row.lines
    ensures was.status.HoldsStock() && row.status.Paid? ==> MovedAll(tiers, Sell, row.lines) == Retallied(tiers, was, row)
    ensures was.status.HoldsStock() && !row.status.HoldsStock() && !row.status.Paid? ==>
              MovedAll(tiers, GiveBack, row.lines) == Retallied(tiers, was, row)
    ensures was.status.Paid? && !row.status.HoldsStock() && !row.status.Paid? ==>
              MovedAll(tiers, Unsell, row.lines) == Retallied(tiers, was, row)
    ensures !was.status.HoldsStock() && !was.status.Paid? && !row.status.HoldsStock() && !row.status.Paid? ==>
              tiers == Retallied(tiers, was, row)
  {
  }

  lemma {:induction false} RetakingIsRetallying(tiers: map<string, Tier>, was: Row, row: Row)
    requires was.lines == row.lines && !was.status.HoldsStock() && !was.status.Paid? && row.status.Paid?
    ensures MovedAll(MovedAll(tiers, Take, row.lines), Sell, row.lines) == Retallied(tiers, was, row)
  {
  }

  /** Committing a pending order's chairs leaves it owning what it names. */
  lemma {:induction false} CommittingIsReseating(o: Office, i: nat, row: Row)
    requires Seated(o) && i < |o.orders| && o.orders[i].status.HoldsStock()
    requires row.lines == o.orders[i].lines && row.status.Paid?
    ensures Committed(o.chairs, i) == Reseated(o.chairs, i, row)
  {
    var was := o.orders[i];
    assert HasItsChairs(o.chairs, i, was);
    forall c | c in o.chairs
      ensures Committed(o.chairs, i)[c] == Reseated(o.chairs, i, row)[c]
    {
      assert ChairFits(o.orders, c, o.chairs[c]);
      assert Names(was.lines, c) ==> Owns(o.chairs, i, was, c);
    }
  }

  /** Freeing what an order holds, or what it bought, leaves it owning nothing. */
  lemma {:induction false} FreeingIsReseating(o: Office, i: nat, status: ChairStatus, row: Row)
    requires Seated(o) && i < |o.orders|
    requires if status.Held? then o.orders[i].status.HoldsStock() else status.Taken? && o.orders[i].status.Paid?
    requires !row.status.HoldsStock() && !row.status.Paid?
    ensures Freed(o.chairs, i, status) == Reseated(o.chairs, i, row)
  {
    forall c | c in o.chairs
      ensures Freed(o.chairs, i, status)[c] == Reseated(o.chairs, i, row)[c]
    {
      assert ChairFits(o.orders, c, o.chairs[c]);
    }
  }

  lemma {:induction false} NothingToReseat(o: Office, i: nat, row: Row)
    requires Seated(o) && i < |o.orders| && !o.orders[i].status.HoldsStock() && !o.orders[i].status.Paid?
    requires !row.status.HoldsStock() && !row.status.Paid?
    ensures o.chairs == Reseated(o.chairs, i, row)
  {
    forall c | c in o.chairs
      ensures o.chairs[c] == Reseated(o.chairs, i, row)[c]
    {
      assert ChairFits(o.orders, c, o.chairs[c]);
    }
  }

  /** Holding all the free chairs a row names is seating it, if it was seated nowhere. */
  lemma {:induction false} HoldingIsReseating(o: Office, i: nat, row: Row)
    requires Seated(o) && i <= |o.orders| && row.status.HoldsStock()
    requires i < |o.orders| ==> !o.orders[i].status.HoldsStock() && !o.orders[i].status.Paid?
    requires AllFree(o.chairs, row.event, row.lines)
    ensures HeldFrom(o.chairs, Seats(row.lines), i) == Reseated(o.chairs, i, row)
  {
    forall c | c in o.chairs
      ensures HeldFrom(o.chairs, Seats(row.lines), i)[c] == Reseated(o.chairs, i, row)[c]
    {
      assert ChairFits(o.orders, c, o.chairs[c]);
      SeatsAreNamed(row.lines, c);
      if Names(row.lines, c) {
        var k :| 0 <= k < |row.lines| && row.lines[k].seat == Some(c);
        assert Claimable(o.chairs, row.event, row.lines[k].tier, c);
      }
    }
  }

  /** A new order holds what was taken for it. */
  lemma {:induction false} TakingIsPlacing(o: Office, row: Row)
    requires Seated(o) && row.status.HoldsStock() && AllFree(o.chairs, row.event, row.lines)
    ensures MovedAll(o.tiers, Take, row.lines) == Retallied(o.tiers, NOTHING, row)
    ensures HeldFrom(o.chairs, Seats(row.lines), |o.orders|) == Reseated(o.chairs, |o.orders|, row)
  {
    HoldingIsReseating(o, |o.orders|, row);
  }

  /** And committing them at once is selling them to it. */
  lemma {:induction false} RetakingIsReseating(o: Office, i: nat, row: Row)
    requires Seated(o) && i < |o.orders| && !o.orders[i].status.HoldsStock() && !o.orders[i].status.Paid?
    requires row.lines == o.orders[i].lines && row.event == o.orders[i].event && row.status.Paid?
    requires AllFree(o.chairs, row.event, row.lines)
    ensures Committed(HeldFrom(o.chairs, Seats(row.lines), i), i) == Reseated(o.chairs, i, row)
  {
    var held := row.(status := PendingPayment);
    HoldingIsReseating(o, i, held);
    forall c | c in o.chairs
      ensures Committed(Reseated(o.chairs, i, held), i)[c] == Reseated(o.chairs, i, row)[c]
    {
      assert ChairFits(o.orders, c, o.chairs[c]);
    }
  }

  /** A pending order can give back or sell all it holds; a paid one can give up all it bought. */
  lemma {:induction false} OwnStockIsCovered(o: Office, i: nat, move: Move)
    requires Inv(o) && i < |o.orders|
    requires if move.Unsell? then o.orders[i].status.Paid? else !move.Take? && o.orders[i].status.HoldsStock()
    ensures Covers(o.tiers, move, o.orders[i].lines)
  {
    var lines := o.orders[i].lines;
    assert RowFits(o.tiers, o.chairs, o.orders[i]);
    forall k | 0 <= k < |lines|
      ensures lines[k].tier in o.tiers && o.tiers[lines[k].tier].Allows(move, Demand(lines, lines[k].tier))
    {
      var t := lines[k].tier;
      assert LineFits(o.tiers, o.chairs, o.orders[i].event, lines[k]);
      assert TierTallies(o.orders, t, o.tiers[t]);
      OrderWithinSums(o, i, t);
    }
  }

  lemma {:induction false} OrderWithinSums(o: Office, i: nat, t: string)
    requires Fitting(o) && i < |o.orders|
    ensures OnHold(o.orders[i], t) <= SumOnHold(o.orders, t) && Bought(o.orders[i], t) <= SumBought(o.orders, t)
  {
    NaturalWithout(o, i, |o.orders|, t);
    TakeAll(o.orders[i := NOTHING]);
    SumsUpdated(o.orders, i, NOTHING, t);
  }

  // ----------------------------------------------- the seats of an order by tier

  /** The seats of one tier, in line order. */
  function SeatList(lines: seq<Line>, t: string): seq<string> {
    if lines == [] then []
    else
      var last := lines[|lines| - 1];
      SeatList(lines[..|lines| - 1], t) + if last.tier == t && last.seat.Some? then [last.seat.value] else []
  }

  ghost function Group(byTier: map<string, seq<string>>, t: string): seq<string> {
    if t in byTier then byTier[t] else []
  }

  ghost predicate Grouped(lines: seq<Line>, byTier: map<string, seq<string>>) {
    forall t :: Group(byTier, t) == SeatList(lines, t) && (t in byTier ==> SeatList(lines, t) != [])
  }

  lemma {:induction false} GroupedNext(lines: seq<Line>, k: nat, byTier: map<string, seq<string>>)
    requires k < |lines| && Grouped(lines[..k], byTier)
    ensures var line := lines[k];
            Grouped(lines[..k + 1],
                    if line.seat.Some? then byTier[line.tier := Group(byTier, line.tier) + [line.seat.value]] else byTier)
  {
    var line := lines[k];
    assert lines[..k + 1][..k] == lines[..k];
    forall t
      ensures SeatList(lines[..k + 1], t)
              == SeatList(lines[..k], t) + if line.tier == t && line.seat.Some? then [line.seat.value] else []
      ensures SeatList(lines[..k], t) + [] == SeatList(lines[..k], t)
    {
    }
    forall t
      ensures Group(byTier, t) == SeatList(lines[..k], t) && (t in byTier ==> SeatList(lines[..k], t) != [])
    {
    }
  }

  lemma {:induction false} SeatListIsNamed(lines: seq<Line>, t: string, k: nat) returns (j: nat)
    requires k < |SeatList(lines, t)|
    ensures j < |lines| && lines[j].tier == t && lines[j].seat == Some(SeatList(lines, t)[k])
  {
    var n := |lines| - 1;
    if k < |SeatList(lines[..n], t)| {
      j := SeatListIsNamed(lines[..n], t, k);
    } else {
      j := n;
    }
  }

  lemma {:induction false} NamedIsInSeatList(lines: seq<Line>, j: nat)
    requires j < |lines| && lines[j].seat.Some?
    ensures lines[j].seat.value in Elems(SeatList(lines, lines[j].tier))
  {
    var n := |lines| - 1;
    var last := lines[n];
    var before := SeatList(lines[..n], lines[j].tier);
    if last.tier == lines[j].tier && last.seat.Some? {
      ElemsOfSnoc(before, last.seat.value);
    } else {
      assert before + [] == before;
    }
    if j < n {
      NamedIsInSeatList(lines[..n], j);
    }
  }

  lemma {:induction false} LinesAreOnSale(o: Office, i: nat)
    requires Fitting(o) && Tallied(o) && i < |o.orders|
    ensures forall k | 0 <= k < |o.orders[i].lines| ::
              o.orders[i].lines[k].tier in o.tiers && o.tiers[o.orders[i].lines[k].tier].reserved >= 0
  {
    var row := o.orders[i];
    assert RowFits(o.tiers, o.chairs, row);
    forall k | 0 <= k < |row.lines|
      ensures row.lines[k].tier in o.tiers && o.tiers[row.lines[k].tier].reserved >= 0
    {
      assert LineFits(o.tiers, o.chairs, row.event, row.lines[k]);
      assert TierTallies(o.orders, row.lines[k].tier, o.tiers[row.lines[k].tier]);
    }
  }

  /** Chairs asked for so far: named by the row under one of the tiers so far, and all free. */
  ghost predicate AskedAndFree(o: Office, row: Row, asked: set<string>, tiers: seq<string>) {
    forall c | c in asked :: Names(row.lines, c) && c in o.chairs && o.chairs[c].tier in tiers && o.chairs[c].status.Available?
  }

  /** A seat listed under a tier exists and is of that tier and of the order's event. */
  lemma {:induction false} SeatsFitTheirTier(o: Office, i: nat, t: string)
    requires Fitting(o) && i < |o.orders|
    ensures var ids := SeatList(o.orders[i].lines, t);
            forall k | 0 <= k < |ids| ::
              && Names(o.orders[i].lines, ids[k]) && ids[k] in o.chairs
              && o.chairs[ids[k]].event == o.orders[i].event && o.chairs[ids[k]].tier == t
  {
    var row := o.orders[i];
    var ids := SeatList(row.lines, t);
    assert RowFits(o.tiers, o.chairs, row);
    forall k | 0 <= k < |ids|
      ensures Names(row.lines, ids[k]) && ids[k] in o.chairs
      ensures o.chairs[ids[k]].event == row.event && o.chairs[ids[k]].tier == t
    {
      var j := SeatListIsNamed(row.lines, t, k);
      assert LineFits(o.tiers, o.chairs, row.event, row.lines[j]);
    }
  }

  /** A claim of the next tier's seats loses one exactly when one of them was not free to begin with. */
  lemma {:induction false} ClaimedWhatIsFree(o: Office, i: nat, asked: set<string>, names: seq<string>, k: nat)
    requires Fitting(o) && i < |o.orders| && k < |names| && Distinct(names)
    requires AskedAndFree(o, o.orders[i], asked, names[..k])
    ensures var row := o.orders[i];
            var ids := SeatList(row.lines, names[k]);
            if forall j | 0 <= j < |ids| :: Claimable(HeldFrom(o.chairs, asked, i), row.event, names[k], ids[j])
            then AskedAndFree(o, row, asked + Elems(ids), names[..k + 1])
            else !AllFree(o.chairs, row.event, row.lines)
  {
    var row := o.orders[i];
    var ids := SeatList(row.lines, names[k]);
    SeatsFitTheirTier(o, i, names[k]);
    TakeNext(names, k);
    DistinctPrefix(names, k);
    ElemsAreMembers(names[..k], names[k]);
    if j :| 0 <= j < |ids| && !Claimable(HeldFrom(o.chairs, asked, i), row.event, names[k], ids[j]) {
      var l := SeatListIsNamed(row.lines, names[k], j);
      assert !Claimable(o.chairs, row.event, row.lines[l].tier, row.lines[l].seat.value);
    } else {
      forall c | c in asked + Elems(ids)
        ensures Names(row.lines, c) && c in o.chairs && o.chairs[c].tier in names[..k + 1] && o.chairs[c].status.Available?
      {
        if c !in asked {
          ElemsAreMembers(ids, c);
          var j :| 0 <= j < |ids| && ids[j] == c;
          assert Claimable(HeldFrom(o.chairs, asked, i), row.event, names[k], ids[j]);
        }
      }
    }
  }

  /** The seats the lines name under some tiers. */
  ghost function SeatsUnder(lines: seq<Line>, names: seq<string>): set<string> {
    if names == [] then {}
    else SeatsUnder(lines, names[..|names| - 1]) + Elems(SeatList(lines, names[|names| - 1]))
  }

  lemma {:induction false} SeatsUnderNext(lines: seq<Line>, names: seq<string>, k: nat)
    requires k < |names|
    ensures SeatsUnder(lines, names[..k + 1]) == SeatsUnder(lines, names[..k]) + Elems(SeatList(lines, names[k]))
  {
    assert names[..k + 1][..k] == names[..k];
  }

  lemma {:induction false} SeatsUnderEach(lines: seq<Line>, names: seq<string>, k: nat)
    requires k < |names|
    ensures Elems(SeatList(lines, names[k])) <= SeatsUnder(lines, names)
  {
    if k < |names| - 1 {
      SeatsUnderEach(lines, names[..|names| - 1], k);
    }
  }

  /** Once every tier's seats were claimed, every seat the order names was free, and was asked for. */
  lemma {:induction false} AllSeatsAsked(o: Office, row: Row, names: seq<string>)
    requires RowFits(o.tiers, o.chairs, row)
    requires forall t | SeatList(row.lines, t) != [] :: t in names
    requires AskedAndFree(o, row, SeatsUnder(row.lines, names), names)
    ensures SeatsUnder(row.lines, names) == Seats(row.lines) && AllFree(o.chairs, row.event, row.lines)
  {
    var asked := SeatsUnder(row.lines, names);
    forall j | 0 <= j < |row.lines| && row.lines[j].seat.Some?
      ensures row.lines[j].seat.value in asked
      ensures Claimable(o.chairs, row.event, row.lines[j].tier, row.lines[j].seat.value)
    {
      NamedIsInSeatList(row.lines, j);
      var k :| 0 <= k < |names| && names[k] == row.lines[j].tier;
      SeatsUnderEach(row.lines, names, k);
      assert LineFits(o.tiers, o.chairs, row.event, row.lines[j]);
    }
    forall c | c in asked
      ensures c in Seats(row.lines)
    {
      SeatsAreNamed(row.lines, c);
    }
  }

  // ------------------------------------------------------------------- sweeps

  /** Each of these orders' holds has lapsed by the time the ones before it were swept. */
  ghost predicate EachLapses(o: Office, picks: seq<nat>, now: int) {
    picks == []
    || (var before := Swept(o, picks[..|picks| - 1], now);
        var p := picks[|picks| - 1];
        EachLapses(o, picks[..|picks| - 1], now) && p < |before.orders| && before.orders[p].HoldLapsed(now))
  }

  lemma {:induction false} EachLapsesAt(o: Office, picks: seq<nat>, now: int, k: nat)
    requires EachLapses(o, picks, now) && k < |picks|
    ensures var then_ := Swept(o, picks[..k], now);
            picks[k] < |then_.orders| && then_.orders[picks[k]].HoldLapsed(now)
  {
    var n := |picks| - 1;
    if k < n {
      assert picks[..n][..k] == picks[..k];
      EachLapsesAt(o, picks[..n], now, k);
    }
  }

  /** The sweep's next order lets go of its stock and chairs. */
  lemma {:induction false} SweptNext(o: Office, picks: seq<nat>, now: int, k: nat)
    requires EachLapses(o, picks, now) && k < |picks|
    ensures var then_, next, p := Swept(o, picks[..k], now), Swept(o, picks[..k + 1], now), picks[k];
            && p < |then_.orders| && then_.orders[p].status.HoldsStock()
            && var row := then_.orders[p].At(Expired, now);
               next.tiers == Retallied(then_.tiers, then_.orders[p], row) && next.chairs == Reseated(then_.chairs, p, row)
  {
    EachLapsesAt(o, picks, now, k);
    assert picks[..k + 1][..k] == picks[..k];
  }

  lemma {:induction false} SweepingKeepsLines(o: Office, picks: seq<nat>, now: int, i: nat)
    ensures |Swept(o, picks, now).orders| == |o.orders|
    ensures i < |o.orders| ==> Swept(o, picks, now).orders[i].lines == o.orders[i].lines
  {
    if picks != [] {
      SweepingKeepsLines(o, picks[..|picks| - 1], now, i);
    }
  }

  lemma {:induction false} SweepingKeepsAdmissions(o: Office, picks: seq<nat>, now: int)
    ensures Swept(o, picks, now).admissions == o.admissions
  {
    if picks != [] {
      SweepingKeepsAdmissions(o, picks[..|picks| - 1], now);
    }
  }
}
