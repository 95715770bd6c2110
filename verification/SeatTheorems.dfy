/** On a seated tier the counters are a projection of the chairs: they never drift apart. */
module SeatTheorems {
  import opened Results
  import Text
  import opened Orders
  import opened Tickets
  import Basket
  import opened Sales
  import opened SalesInvariant
  import opened SalesSteps
  import opened SalesTheorems

  /** The chairs of one tier with one status. */
  ghost function ChairsBy(o: Office, t: string, status: ChairStatus): set<string> {
    set c | c in o.chairs && o.chairs[c].tier == t && o.chairs[c].status == status
  }

  ghost function ChairsOf(o: Office, t: string): set<string> {
    set c | c in o.chairs && o.chairs[c].tier == t
  }

  /** The chairs of the tier that the lines name. */
  ghost function SeatsOf(lines: seq<Line>, t: string): set<string> {
    if lines == [] then {}
    else
      var last := lines[|lines| - 1];
      SeatsOf(lines[..|lines| - 1], t) + if last.tier == t && last.seat.Some? then {last.seat.value} else {}
  }

  lemma {:induction false} SeatsOfAreNamed(lines: seq<Line>, t: string, c: string)
    ensures c in SeatsOf(lines, t) <==> exists k :: 0 <= k < |lines| && lines[k].tier == t && lines[k].seat == Some(c)
  {
    if lines != [] {
      var n := |lines| - 1;
      SeatsOfAreNamed(lines[..n], t, c);
      if c in SeatsOf(lines[..n], t) {
        var k :| 0 <= k < n && lines[..n][k].tier == t && lines[..n][k].seat == Some(c);
        assert lines[k].tier == t && lines[k].seat == Some(c);
      }
      if k :| 0 <= k < |lines| && lines[k].tier == t && lines[k].seat == Some(c) && k < n {
        assert lines[..n][k].tier == t && lines[..n][k].seat == Some(c);
      }
    }
  }

  /** One ticket per chair, and no chair twice. */
  lemma {:induction false} DemandCountsSeats(lines: seq<Line>, t: string)
    requires DistinctSeats(lines)
    requires forall k | 0 <= k < |lines| && lines[k].tier == t :: lines[k].seat.Some? && lines[k].quantity == 1
    ensures |SeatsOf(lines, t)| == Demand(lines, t)
  {
    if lines != [] {
      var n := |lines| - 1;
      DemandCountsSeats(lines[..n], t);
      if lines[n].tier == t {
        SeatsOfAreNamed(lines[..n], t, lines[n].seat.value);
        assert lines[n].seat.value !in SeatsOf(lines[..n], t);
      }
    }
  }

  /** What an order has of a tier under a chair status: held while pending, sold while paid. */
  ghost function Owned(row: Row, t: string, status: ChairStatus): int {
    if status.Held? then OnHold(row, t) else Bought(row, t)
  }

  ghost function SumOwned(orders: seq<Row>, t: string, status: ChairStatus): int {
    if status.Held? then SumOnHold(orders, t) else SumBought(orders, t)
  }

  /** The chairs of the tier that the first `n` orders have. */
  ghost function OwnedBelow(o: Office, t: string, status: ChairStatus, n: nat): set<string> {
    set c | c in o.chairs && o.chairs[c].tier == t && o.chairs[c].status == status
            && o.chairs[c].order.Some? && o.chairs[c].order.value < n
  }

  ghost function OwnedBy(o: Office, t: string, status: ChairStatus, i: nat): set<string> {
    set c | c in o.chairs && o.chairs[c].tier == t && o.chairs[c].status == status && o.chairs[c].order == Some(i)
  }

  ghost predicate SeatedTier(o: Office, t: string) {
    t in o.tiers && HasChairs(o.chairs, o.tiers[t].event, t)
  }

  lemma {:induction false} LinesOfSeatedTier(o: Office, t: string, i: nat)
    requires Fitting(o) && SeatedTier(o, t) && i < |o.orders|
    ensures forall k | 0 <= k < |o.orders[i].lines| && o.orders[i].lines[k].tier == t ::
              && o.orders[i].lines[k].seat.Some? && o.orders[i].lines[k].quantity == 1
              && o.orders[i].lines[k].seat.value in o.chairs && o.chairs[o.orders[i].lines[k].seat.value].tier == t
  {
    var row := o.orders[i];
    assert RowFits(o.tiers, o.chairs, row);
    forall k | 0 <= k < |row.lines| && row.lines[k].tier == t
      ensures row.lines[k].seat.Some? && row.lines[k].quantity == 1
      ensures row.lines[k].seat.value in o.chairs && o.chairs[row.lines[k].seat.value].tier == t
    {
      assert LineFits(o.tiers, o.chairs, row.event, row.lines[k]);
    }
  }

  lemma {:induction false} OwnedByIsSeatsOf(o: Office, t: string, status: ChairStatus, i: nat)
    requires Fitting(o) && Seated(o) && SeatedTier(o, t) && i < |o.orders|
    requires if status.Held? then o.orders[i].status.HoldsStock() else status.Taken? && o.orders[i].status.Paid?
    ensures OwnedBy(o, t, status, i) == SeatsOf(o.orders[i].lines, t)
  {
    var lines := o.orders[i].lines;
    LinesOfSeatedTier(o, t, i);
    assert RowFits(o.tiers, o.chairs, o.orders[i]) && HasItsChairs(o.chairs, i, o.orders[i]);
    forall c
      ensures c in OwnedBy(o, t, status, i) <==> c in SeatsOf(lines, t)
    {
      SeatsOfAreNamed(lines, t, c);
      if c in OwnedBy(o, t, status, i) {
        assert ChairFits(o.orders, c, o.chairs[c]);
        var k :| 0 <= k < |lines| && lines[k].seat == Some(c);
        assert LineFits(o.tiers, o.chairs, o.orders[i].event, lines[k]);
      }
      if c in SeatsOf(lines, t) {
        assert Names(lines, c);
        assert Owns(o.chairs, i, o.orders[i], c);
      }
    }
  }

  lemma {:induction false} OwnedByCounts(o: Office, t: string, status: ChairStatus, i: nat)
    requires Fitting(o) && Seated(o) && SeatedTier(o, t) && i < |o.orders| && (status.Held? || status.Taken?)
    ensures |OwnedBy(o, t, status, i)| == Owned(o.orders[i], t, status)
  {
    var row := o.orders[i];
    if (status.Held? && row.status.HoldsStock()) || (status.Taken? && row.status.Paid?) {
      OwnedByIsSeatsOf(o, t, status, i);
      LinesOfSeatedTier(o, t, i);
      assert DistinctSeats(row.lines);
      DemandCountsSeats(row.lines, t);
    } else {
      forall c | c in o.chairs
        ensures !(o.chairs[c].status == status && o.chairs[c].order == Some(i))
      {
        assert ChairFits(o.orders, c, o.chairs[c]);
      }
      assert OwnedBy(o, t, status, i) == {};
    }
  }

  lemma {:induction false} DisjointSizes(a: set<string>, b: set<string>)
    requires a !! b
    ensures |a + b| == |a| + |b|
  {
  }

  lemma {:induction false} OwnedBelowNext(o: Office, t: string, status: ChairStatus, n: nat)
    ensures |OwnedBelow(o, t, status, n + 1)| == |OwnedBelow(o, t, status, n)| + |OwnedBy(o, t, status, n)|
  {
    var below, own := OwnedBelow(o, t, status, n), OwnedBy(o, t, status, n);
    assert OwnedBelow(o, t, status, n + 1) == below + own;
    assert below !! own;
    DisjointSizes(below, own);
  }

  lemma {:induction false} OwnedBelowCounts(o: Office, t: string, status: ChairStatus, n: nat)
    requires Fitting(o) && Seated(o) && SeatedTier(o, t) && n <= |o.orders| && (status.Held? || status.Taken?)
    ensures |OwnedBelow(o, t, status, n)| == SumOwned(o.orders[..n], t, status)
  {
    if n == 0 {
      assert OwnedBelow(o, t, status, 0) == {};
    } else {
      OwnedBelowCounts(o, t, status, n - 1);
      OwnedByCounts(o, t, status, n - 1);
      OwnedBelowNext(o, t, status, n - 1);
      assert o.orders[..n][..n - 1] == o.orders[..n - 1];
    }
  }

  lemma {:induction false} OccupiedChairsAreOwned(o: Office, t: string, status: ChairStatus)
    requires Seated(o) && (status.Held? || status.Taken?)
    ensures ChairsBy(o, t, status) == OwnedBelow(o, t, status, |o.orders|)
  {
    forall c | c in o.chairs
      ensures o.chairs[c].status == status ==> o.chairs[c].order.Some? && o.chairs[c].order.value < |o.orders|
    {
      assert ChairFits(o.orders, c, o.chairs[c]);
    }
  }

  /** On a seated tier the held chairs are `reserved` and the sold chairs are `sold`, after any run. */
  lemma {:induction false} ChairsAndCountersNeverDrift(o: Office, steps: seq<(Step, int)>, t: string)
    requires Opening(o) && SeatedTier(Run(o, steps), t)
    ensures var end := Run(o, steps);
            && |ChairsBy(end, t, Held)| == end.tiers[t].reserved
            && |ChairsBy(end, t, Taken)| == end.tiers[t].sold
  {
    OpeningIsValid(o);
    EveryRunKeepsInv(o, steps);
    var end := Run(o, steps);
    assert TierTallies(end.orders, t, end.tiers[t]);
    TakeAll(end.orders);
    OccupiedChairsAreOwned(end, t, Held);
    OwnedBelowCounts(end, t, Held, |end.orders|);
    OccupiedChairsAreOwned(end, t, Taken);
    OwnedBelowCounts(end, t, Taken, |end.orders|);
  }

  // ------------------------------------------------------- no chair is lost

  lemma {:induction false} ApplyingKeepsHouse(o: Office, i: nat, next: Status, now: int)
    ensures SameHouse(o, Applied(o, i, next, now))
    ensures forall t | t in o.tiers :: Applied(o, i, next, now).tiers[t].quantity == o.tiers[t].quantity
  {
  }

  lemma {:induction false} SweepingKeepsHouse(o: Office, picks: seq<nat>, now: int)
    ensures SameHouse(o, Swept(o, picks, now))
    ensures forall t | t in o.tiers :: Swept(o, picks, now).tiers[t].quantity == o.tiers[t].quantity
  {
    if picks != [] {
      SweepingKeepsHouse(o, picks[..|picks| - 1], now);
      ApplyingKeepsHouse(Swept(o, picks[..|picks| - 1], now), picks[|picks| - 1], Expired, now);
    }
  }

  /** A step that writes a tier's quantity column. */
  predicate Rewrites(step: Step, t: string) {
    (step.Edit? || step.Relist?) && step.tier == t
  }

  /** The quantity such a step would write. */
  function WrittenBy(step: Step): int
    requires step.Edit? || step.Relist?
  {
    if step.Edit? then step.draft.quantity else step.seen.quantity
  }

  /** The operator's form passes on the copy it was decided on, and the stored counters fit what it writes. */
  predicate Accepted(o: Office, step: Step, t: string) {
    && Rewrites(step, t) && t in o.tiers
    && (if step.Edit? then Refusal(step.draft, step.seen.sold + step.seen.reserved).None?
        else !(step.next.OnSale? && step.seen.quantity <= step.seen.sold + step.seen.reserved))
    && o.tiers[t].sold >= 0 && o.tiers[t].reserved >= 0 && o.tiers[t].sold + o.tiers[t].reserved <= WrittenBy(step)
  }

  lemma {:induction false} StepKeepsHouse(o: Office, step: Step, now: int, t: string)
    ensures SameHouse(o, After(o, step, now))
    ensures t in o.tiers && !Rewrites(step, t) ==> After(o, step, now).tiers[t].quantity == o.tiers[t].quantity
  {
    match step {
      case Cancel(i) => ApplyingKeepsHouse(o, i, Cancelled, now);
      case Expire(i) => ApplyingKeepsHouse(o, i, Expired, now);
      case Sweep(picks) => SweepingKeepsHouse(o, picks, now);
      case Settle(i, charge) =>
        if i < |o.orders| && Verdict(o, o.orders[i], charge).Some? {
          ApplyingKeepsHouse(o, i, Verdict(o, o.orders[i], charge).value, now);
        }
      case Start(p) => StartingKeepsHouse(o, p, now);
      case Press(_, _, _) =>
      case Scan(_) =>
      case Reissue(_) =>
      case _ => OperatorKeepsHouse(o, step, now, t);
    }
  }

  lemma {:induction false} StartingKeepsHouse(o: Office, p: Purchase, now: int)
    ensures SameHouse(o, Started(o, p, now))
    ensures forall t | t in o.tiers :: Started(o, p, now).tiers[t].quantity == o.tiers[t].quantity
  {
    var wanted := Basket.Normalized(p.items);
    if wanted.Ok? && Takeable(o, wanted.value) && p.formIsValid {
      PlacingKeepsHouse(o, NewRow(o, wanted.value, p, now));
    }
  }

  lemma {:induction false} PlacingKeepsHouse(o: Office, row: Row)
    ensures SameHouse(o, Placed(o, row))
    ensures forall t | t in o.tiers :: Placed(o, row).tiers[t].quantity == o.tiers[t].quantity
  {
  }

  lemma {:induction false} OperatorKeepsHouse(o: Office, step: Step, now: int, t: string)
    requires step.Edit? || step.Relist? || step.Rebind? || step.Block? || step.Unblock?
    ensures SameHouse(o, After(o, step, now))
    ensures t in o.tiers && !Rewrites(step, t) ==> After(o, step, now).tiers[t].quantity == o.tiers[t].quantity
  {
  }

  lemma {:induction false} RunKeepsHouse(o: Office, steps: seq<(Step, int)>, t: string)
    ensures SameHouse(o, Run(o, steps))
    ensures t in o.tiers && (forall k | 0 <= k < |steps| :: !Rewrites(steps[k].0, t)) ==>
              Run(o, steps).tiers[t].quantity == o.tiers[t].quantity
  {
    if steps != [] {
      var n := |steps| - 1;
      RunKeepsHouse(o, steps[..n], t);
      StepKeepsHouse(Run(o, steps[..n]), steps[n].0, steps[n].1, t);
    }
  }

  lemma {:induction false} FourStatuses(o: Office, t: string)
    ensures |ChairsBy(o, t, Available)| + |ChairsBy(o, t, Held)| + |ChairsBy(o, t, Taken)| + |ChairsBy(o, t, Blocked)|
            == |ChairsOf(o, t)|
  {
    var a, h := ChairsBy(o, t, Available), ChairsBy(o, t, Held);
    var s, b := ChairsBy(o, t, Taken), ChairsBy(o, t, Blocked);
    assert ChairsOf(o, t) == (a + h) + (s + b);
    DisjointSizes(a, h);
    DisjointSizes(s, b);
    DisjointSizes(a + h, s + b);
  }

  /** The four statuses together. */
  ghost function AllFour(o: Office, t: string): nat {
    |ChairsBy(o, t, Available)| + |ChairsBy(o, t, Held)| + |ChairsBy(o, t, Taken)| + |ChairsBy(o, t, Blocked)|
  }

  lemma {:induction false} AcceptedWrites(o: Office, step: Step, now: int, t: string)
    requires t in o.tiers && Rewrites(step, t)
    ensures t in After(o, step, now).tiers
    ensures After(o, step, now).tiers[t].quantity == if Accepted(o, step, t) then WrittenBy(step) else o.tiers[t].quantity
  {
  }

  /** The quantity the last accepted write left, or the one the tier opened with. */
  ghost function LastWritten(o: Office, steps: seq<(Step, int)>, t: string): int
    requires t in o.tiers
  {
    if steps == [] then o.tiers[t].quantity
    else
      var n := |steps| - 1;
      if Accepted(Run(o, steps[..n]), steps[n].0, t) then WrittenBy(steps[n].0) else LastWritten(o, steps[..n], t)
  }

  lemma {:induction false} QuantityIsLastWritten(o: Office, steps: seq<(Step, int)>, t: string)
    requires t in o.tiers
    ensures t in Run(o, steps).tiers && Run(o, steps).tiers[t].quantity == LastWritten(o, steps, t)
  {
    if steps != [] {
      var n := |steps| - 1;
      QuantityIsLastWritten(o, steps[..n], t);
      if Rewrites(steps[n].0, t) {
        AcceptedWrites(Run(o, steps[..n]), steps[n].0, steps[n].1, t);
      } else {
        StepKeepsHouse(Run(o, steps[..n]), steps[n].0, steps[n].1, t);
      }
    }
  }

  /**
   The four statuses of a tier's chairs always sum to the chairs it opened with, and to the tier's
   quantity exactly when the last accepted write of that column was that number.
   */
  lemma {:induction false} ChairsAreConserved(o: Office, steps: seq<(Step, int)>, t: string)
    requires t in o.tiers
    ensures var end := Run(o, steps);
            && t in end.tiers
            && AllFour(end, t) == |ChairsOf(o, t)|
            && (AllFour(end, t) == end.tiers[t].quantity <==> LastWritten(o, steps, t) == |ChairsOf(o, t)|)
  {
    RunKeepsHouse(o, steps, t);
    FourStatuses(Run(o, steps), t);
    assert ChairsOf(Run(o, steps), t) == ChairsOf(o, t);
    QuantityIsLastWritten(o, steps, t);
  }

  /**
   After any accepted edit or change of status the statuses sum to the quantity exactly when what was
   written is the number of chairs: nothing in the code asks for that.
   */
  lemma {:induction false} AnEditOutgrowsTheRoom(o: Office, step: Step, now: int, t: string)
    requires Accepted(o, step, t)
    ensures var end := After(o, step, now);
            && t in end.tiers
            && AllFour(end, t) == |ChairsOf(o, t)|
            && (AllFour(end, t) == end.tiers[t].quantity <==> WrittenBy(step) == |ChairsOf(o, t)|)
            && (AllFour(end, t) < end.tiers[t].quantity <==> WrittenBy(step) > |ChairsOf(o, t)|)
  {
    StepKeepsHouse(o, step, now, t);
    FourStatuses(After(o, step, now), t);
    assert ChairsOf(After(o, step, now), t) == ChairsOf(o, t);
    AcceptedWrites(o, step, now, t);
  }
}
