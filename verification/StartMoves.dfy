/** How the reservation loop of a checkout adds up to one new order. */
module StartMoves {
  import opened Results
  import opened Text
  import opened Orders
  import opened Tickets
  import opened Basket
  import opened Sales
  import opened SalesInvariant
  import opened SalesSteps
  import opened StockMoves

  lemma {:induction false} ExpandedNext(wanted: seq<DraftItem>, k: nat)
    requires k < |wanted|
    ensures Expanded(wanted[..k + 1]) == Expanded(wanted[..k]) + LinesOf(wanted[k])
  {
    assert wanted[..k + 1][..k] == wanted[..k];
  }

  /** The lines of the first tiers come first. */
  lemma {:induction false} ExpandedPrefix(wanted: seq<DraftItem>, k: nat)
    requires k <= |wanted|
    ensures Expanded(wanted[..k]) <= Expanded(wanted)
    decreases |wanted| - k
  {
    if k < |wanted| {
      ExpandedNext(wanted, k);
      ExpandedPrefix(wanted, k + 1);
    } else {
      TakeAll(wanted);
    }
  }

  lemma {:induction false} DemandOfConcat(a: seq<Line>, b: seq<Line>, t: string)
    ensures Demand(a + b, t) == Demand(a, t) + Demand(b, t)
    decreases |b|
  {
    if b == [] {
      assert a + b == a;
    } else {
      assert (a + b)[..|a + b| - 1] == a + b[..|b| - 1];
      DemandOfConcat(a, b[..|b| - 1], t);
    }
  }

  lemma {:induction false} DemandOfChairs(d: DraftItem, n: nat, t: string)
    requires d.Seated() && n <= |d.seatIds|
    ensures Demand(LinesOf(d)[..n], t) == if d.ticketId == t then n else 0
  {
    if n > 0 {
      DemandOfChairs(d, n - 1, t);
      assert LinesOf(d)[..n][..n - 1] == LinesOf(d)[..n - 1];
    }
  }

  /** A basket line's order lines ask its own quantity of its own tier. */
  lemma {:induction false} DemandOfItem(d: DraftItem, t: string)
    requires d.Seated() ==> d.quantity == |d.seatIds|
    ensures Demand(LinesOf(d), t) == if d.ticketId == t then d.quantity else 0
  {
    if d.Seated() {
      DemandOfChairs(d, |d.seatIds|, t);
      TakeAll(LinesOf(d));
    } else {
      assert LinesOf(d)[..0] == [];
    }
  }

  lemma {:induction false} TidyAt(wanted: seq<DraftItem>, k: nat)
    requires Tidy(wanted) && k < |wanted|
    ensures Tidy(wanted[..k])
    ensures forall j | 0 <= j < k :: wanted[j].ticketId != wanted[k].ticketId
    ensures wanted[k].Seated() ==> Distinct(wanted[k].seatIds) && wanted[k].quantity == |wanted[k].seatIds|
  {
    var n := |wanted| - 1;
    if k < n {
      TidyAt(wanted[..n], k);
      assert wanted[..n][..k] == wanted[..k];
    }
  }

  lemma {:induction false} DemandNext(wanted: seq<DraftItem>, k: nat, t: string)
    requires Tidy(wanted) && k < |wanted|
    ensures Demand(Expanded(wanted[..k + 1]), t)
            == Demand(Expanded(wanted[..k]), t) + if wanted[k].ticketId == t then wanted[k].quantity else 0
  {
    TidyAt(wanted, k);
    ExpandedNext(wanted, k);
    DemandOfConcat(Expanded(wanted[..k]), LinesOf(wanted[k]), t);
    DemandOfItem(wanted[k], t);
  }

  /** What the first `n` basket lines ask of a tier. */
  ghost function Asked(wanted: seq<DraftItem>, n: nat, t: string): int
    requires n <= |wanted|
  {
    if n == 0 then 0
    else Asked(wanted, n - 1, t) + if wanted[n - 1].ticketId == t then wanted[n - 1].quantity else 0
  }

  lemma {:induction false} DemandIsAsked(wanted: seq<DraftItem>, n: nat, t: string)
    requires Tidy(wanted) && n <= |wanted|
    ensures Demand(Expanded(wanted[..n]), t) == Asked(wanted, n, t)
  {
    if n > 0 {
      DemandIsAsked(wanted, n - 1, t);
      DemandNext(wanted, n - 1, t);
    }
  }

  lemma {:induction false} AskedOfUnlisted(wanted: seq<DraftItem>, n: nat, t: string)
    requires n <= |wanted|
    requires forall k | 0 <= k < n :: wanted[k].ticketId != t
    ensures Asked(wanted, n, t) == 0
  {
    if n > 0 {
      AskedOfUnlisted(wanted, n - 1, t);
    }
  }

  lemma {:induction false} AskedOfListed(wanted: seq<DraftItem>, n: nat, k: nat)
    requires Tidy(wanted) && k < n <= |wanted|
    ensures Asked(wanted, n, wanted[k].ticketId) == wanted[k].quantity
  {
    TidyAt(wanted, n - 1);
    if k < n - 1 {
      AskedOfListed(wanted, n - 1, k);
    } else {
      AskedOfUnlisted(wanted, k, wanted[k].ticketId);
    }
  }

  /** A basket asks nothing of a tier it does not list. */
  lemma {:induction false} NoDemand(wanted: seq<DraftItem>, n: nat, t: string)
    requires Tidy(wanted) && n <= |wanted|
    requires forall k | 0 <= k < n :: wanted[k].ticketId != t
    ensures Demand(Expanded(wanted[..n]), t) == 0
  {
    DemandIsAsked(wanted, n, t);
    AskedOfUnlisted(wanted, n, t);
  }

  /** And of a tier it lists, that line's quantity. */
  lemma {:induction false} DemandOfBasket(wanted: seq<DraftItem>, n: nat, k: nat)
    requires Tidy(wanted) && k < n <= |wanted|
    ensures Demand(Expanded(wanted[..n]), wanted[k].ticketId) == wanted[k].quantity
  {
    DemandIsAsked(wanted, n, wanted[k].ticketId);
    AskedOfListed(wanted, n, k);
  }

  /** Every basket line has at least one order line, of its tier. */
  lemma {:induction false} ItemHasALine(wanted: seq<DraftItem>, j: nat) returns (k: nat)
    requires j < |wanted|
    ensures k < |Expanded(wanted)| && Expanded(wanted)[k].tier == wanted[j].ticketId
  {
    ExpandedNext(wanted, j);
    ExpandedPrefix(wanted, j + 1);
    k := |Expanded(wanted[..j])|;
    assert Expanded(wanted[..j + 1])[k] == LinesOf(wanted[j])[0];
  }

  /** The tiers of the first `n` basket lines can each give what is asked. */
  ghost predicate EachGives(tiers: map<string, Tier>, wanted: seq<DraftItem>, n: nat)
    requires n <= |wanted|
  {
    forall j | 0 <= j < n :: Gives(tiers, wanted[j])
  }

  predicate Gives(tiers: map<string, Tier>, d: DraftItem) {
    d.ticketId in tiers && tiers[d.ticketId].CanTake(d.quantity)
  }

  /** There is room for the order exactly when each tier can give its line's quantity. */
  lemma {:induction false} RoomIsEachTier(tiers: map<string, Tier>, wanted: seq<DraftItem>)
    requires Tidy(wanted)
    ensures Room(tiers, Expanded(wanted)) <==> EachGives(tiers, wanted, |wanted|)
  {
    var lines := Expanded(wanted);
    if EachGives(tiers, wanted, |wanted|) {
      forall k | 0 <= k < |lines|
        ensures lines[k].tier in tiers && tiers[lines[k].tier].CanTake(Demand(lines, lines[k].tier))
      {
        LineHasRoom(tiers, wanted, k);
      }
    }
    if Room(tiers, lines) {
      forall j | 0 <= j < |wanted|
        ensures Gives(tiers, wanted[j])
      {
        ItemHasRoom(tiers, wanted, j);
      }
    }
  }

  lemma {:induction false} LineHasRoom(tiers: map<string, Tier>, wanted: seq<DraftItem>, k: nat)
    requires Tidy(wanted) && EachGives(tiers, wanted, |wanted|) && k < |Expanded(wanted)|
    ensures var t := Expanded(wanted)[k].tier; t in tiers && tiers[t].CanTake(Demand(Expanded(wanted), t))
  {
    var j := LineComesFrom(wanted, k);
    LineOfTier(wanted[j], Expanded(wanted)[k]);
    ItemsDemand(wanted, j);
    assert Gives(tiers, wanted[j]);
  }

  lemma {:induction false} LineOfTier(d: DraftItem, line: Line)
    requires line in LinesOf(d)
    ensures line.tier == d.ticketId
  {
  }

  /** Of each tier the order asks what its basket line asks. */
  lemma {:induction false} ItemsDemand(wanted: seq<DraftItem>, k: nat)
    requires Tidy(wanted) && k < |wanted|
    ensures Demand(Expanded(wanted), wanted[k].ticketId) == wanted[k].quantity
  {
    DemandOfBasket(wanted, |wanted|, k);
    TakeAll(wanted);
  }

  lemma {:induction false} ItemHasRoom(tiers: map<string, Tier>, wanted: seq<DraftItem>, j: nat)
    requires Tidy(wanted) && Room(tiers, Expanded(wanted)) && j < |wanted|
    ensures Gives(tiers, wanted[j])
  {
    var k := ItemHasALine(wanted, j);
    ItemsDemand(wanted, j);
    assert Expanded(wanted)[k].tier in tiers;
  }

  /** One more tier taken. */
  lemma {:induction false} TakenNext(tiers: map<string, Tier>, wanted: seq<DraftItem>, k: nat)
    requires Tidy(wanted) && k < |wanted| && wanted[k].ticketId in tiers
    ensures var (t, n) := (wanted[k].ticketId, wanted[k].quantity);
            var before := MovedAll(tiers, Take, Expanded(wanted[..k]));
            && before[t] == tiers[t]
            && MovedAll(tiers, Take, Expanded(wanted[..k + 1])) == before[t := before[t].Moved(Take, n)]
  {
    var d := wanted[k];
    TidyAt(wanted, k);
    NoDemand(wanted, k, d.ticketId);
    var before, after := Expanded(wanted[..k]), Expanded(wanted[..k + 1]);
    forall t | t in tiers
      ensures MovedAll(tiers, Take, after)[t]
              == if t == d.ticketId then tiers[t].Moved(Take, d.quantity) else MovedAll(tiers, Take, before)[t]
    {
      DemandNext(wanted, k, t);
    }
  }

  lemma {:induction false} SeatsNext(wanted: seq<DraftItem>, k: nat)
    requires k < |wanted|
    ensures Seats(Expanded(wanted[..k + 1])) == Seats(Expanded(wanted[..k])) + Elems(wanted[k].seatIds)
  {
    var before, own := Expanded(wanted[..k]), LinesOf(wanted[k]);
    ExpandedNext(wanted, k);
    forall c
      ensures Names(before + own, c) <==> Names(before, c) || c in Elems(wanted[k].seatIds)
    {
      ElemsAreMembers(wanted[k].seatIds, c);
      if Names(before, c) {
        var j :| 0 <= j < |before| && before[j].seat == Some(c);
        assert (before + own)[j].seat == Some(c);
      }
      if c in wanted[k].seatIds {
        var j :| 0 <= j < |wanted[k].seatIds| && wanted[k].seatIds[j] == c;
        assert (before + own)[|before| + j].seat == Some(c);
      }
    }
    forall c
      ensures c in Seats(before + own) <==> c in Seats(before) || c in Elems(wanted[k].seatIds)
    {
      SeatsAreNamed(before + own, c);
      SeatsAreNamed(before, c);
    }
  }

  /** The free chairs of the first tiers and of the next one are the free chairs of all of them. */
  lemma {:induction false} FreeNext(chairs: map<string, Chair>, event: string, wanted: seq<DraftItem>, k: nat)
    requires k < |wanted| && AllFree(chairs, event, Expanded(wanted[..k]))
    ensures AllFree(chairs, event, Expanded(wanted[..k + 1]))
       <==> forall j | 0 <= j < |wanted[k].seatIds| :: Claimable(chairs, event, wanted[k].ticketId, wanted[k].seatIds[j])
  {
    var d, before := wanted[k], Expanded(wanted[..k]);
    var lines := before + LinesOf(d);
    ExpandedNext(wanted, k);
    forall l | 0 <= l < |lines| && l < |before| && lines[l].seat.Some?
      ensures Claimable(chairs, event, lines[l].tier, lines[l].seat.value)
    {
      assert lines[l] == before[l];
    }
    if AllFree(chairs, event, lines) {
      forall j | 0 <= j < |d.seatIds|
        ensures Claimable(chairs, event, d.ticketId, d.seatIds[j])
      {
        assert lines[|before| + j] == Line(d.ticketId, 1, Some(d.seatIds[j]));
      }
    }
  }

  predicate AllClaimable(chairs: map<string, Chair>, event: string, d: DraftItem) {
    forall j | 0 <= j < |d.seatIds| :: Claimable(chairs, event, d.ticketId, d.seatIds[j])
  }

  /** A claim for the next tier loses a chair exactly when that chair was not free to begin with. */
  lemma {:induction false} ClaimNext(chairs: map<string, Chair>, event: string, wanted: seq<DraftItem>, k: nat, i: nat)
    requires Tidy(wanted) && k < |wanted| && AllFree(chairs, event, Expanded(wanted[..k]))
    ensures AllClaimable(HeldFrom(chairs, Seats(Expanded(wanted[..k])), i), event, wanted[k])
       <==> AllFree(chairs, event, Expanded(wanted[..k + 1]))
  {
    var d := wanted[k];
    TidyAt(wanted, k);
    FreeNext(chairs, event, wanted, k);
    forall j | 0 <= j < |d.seatIds|
      ensures Claimable(HeldFrom(chairs, Seats(Expanded(wanted[..k])), i), event, d.ticketId, d.seatIds[j])
         <==> Claimable(chairs, event, d.ticketId, d.seatIds[j])
    {
      if Claimable(chairs, event, d.ticketId, d.seatIds[j]) {
        NamedUnderOneTier(chairs, event, wanted[..k], d, d.seatIds[j]);
        SeatsAreNamed(Expanded(wanted[..k]), d.seatIds[j]);
      }
    }
  }

  lemma {:induction false} FreePrefix(chairs: map<string, Chair>, event: string, wanted: seq<DraftItem>, k: nat)
    requires k <= |wanted| && AllFree(chairs, event, Expanded(wanted))
    ensures AllFree(chairs, event, Expanded(wanted[..k]))
  {
    ExpandedPrefix(wanted, k);
    var lines, all := Expanded(wanted[..k]), Expanded(wanted);
    forall l | 0 <= l < |lines| && lines[l].seat.Some?
      ensures Claimable(chairs, event, lines[l].tier, lines[l].seat.value)
    {
      assert all[l] == lines[l];
    }
  }

  /** What the first `k` basket lines took: the tables as they are, from the tables as they were. */
  ghost predicate TookSoFar(
      o: Office, event: string, wanted: seq<DraftItem>, k: nat, i: nat, tiers: map<string, Tier>, chairs: map<string, Chair>)
    requires k <= |wanted|
  {
    && AllFree(o.chairs, event, Expanded(wanted[..k]))
    && EachGives(o.tiers, wanted, k)
    && tiers == MovedAll(o.tiers, Take, Expanded(wanted[..k]))
    && chairs == HeldFrom(o.chairs, Seats(Expanded(wanted[..k])), i)
  }

  lemma {:induction false} TookNothing(o: Office, event: string, wanted: seq<DraftItem>, i: nat)
    ensures TookSoFar(o, event, wanted, 0, i, o.tiers, o.chairs)
  {
    assert Seats([]) == {};
    HeldNothing(o.chairs, i);
    MovedNothing(o.tiers, Take);
  }

  /** A claim for the next tier's chairs, all of them free, holds them beside the others. */
  lemma {:induction false} HeldNext(chairs: map<string, Chair>, event: string, wanted: seq<DraftItem>, k: nat, i: nat)
    requires k < |wanted|
    requires AllFree(chairs, event, Expanded(wanted[..k])) && AllFree(chairs, event, Expanded(wanted[..k + 1]))
    ensures var held := HeldFrom(chairs, Seats(Expanded(wanted[..k])), i);
            Claimed(held, event, wanted[k].ticketId, wanted[k].seatIds, i)
            == HeldFrom(chairs, Seats(Expanded(wanted[..k + 1])), i)
  {
    var d := wanted[k];
    SeatsNext(wanted, k);
    FreeNext(chairs, event, wanted, k);
    assert forall j | 0 <= j < |d.seatIds| :: Claimable(chairs, event, d.ticketId, d.seatIds[j]);
    ClaimExtends(chairs, Seats(Expanded(wanted[..k])), event, d.ticketId, d.seatIds, i);
  }

  /** Claiming no chairs changes none. */
  lemma {:induction false} ClaimedNone(chairs: map<string, Chair>, event: string, t: string, i: nat)
    ensures Claimed(chairs, event, t, [], i) == chairs
  {
  }

  lemma {:induction false} TookNext(
      o: Office, event: string, wanted: seq<DraftItem>, k: nat, i: nat, tiers: map<string, Tier>, chairs: map<string, Chair>)
    requires Tidy(wanted) && k < |wanted| && TookSoFar(o, event, wanted, k, i, tiers, chairs)
    requires AllFree(o.chairs, event, Expanded(wanted[..k + 1])) && Gives(o.tiers, wanted[k])
    ensures var d := wanted[k];
            && d.ticketId in tiers
            && TookSoFar(o, event, wanted, k + 1, i,
                         tiers[d.ticketId := tiers[d.ticketId].Moved(Take, d.quantity)],
                         Claimed(chairs, event, d.ticketId, d.seatIds, i))
  {
    TakenNext(o.tiers, wanted, k);
    HeldNext(o.chairs, event, wanted, k, i);
  }

  /** The next line can be taken exactly when its chairs were free and its tier has what it asks. */
  lemma {:induction false} NextIsTakeable(
      o: Office, event: string, wanted: seq<DraftItem>, k: nat, i: nat, tiers: map<string, Tier>, chairs: map<string, Chair>)
    requires Tidy(wanted) && k < |wanted| && TookSoFar(o, event, wanted, k, i, tiers, chairs)
    ensures AllClaimable(chairs, event, wanted[k]) <==> AllFree(o.chairs, event, Expanded(wanted[..k + 1]))
    ensures Gives(tiers, wanted[k]) <==> Gives(o.tiers, wanted[k])
  {
    ClaimNext(o.chairs, event, wanted, k, i);
    if wanted[k].ticketId in o.tiers {
      TakenNext(o.tiers, wanted, k);
    }
  }

  /** A line that cannot be taken is one the whole order cannot do without. */
  lemma {:induction false} StuckAt(o: Office, event: string, wanted: seq<DraftItem>, k: nat)
    requires Tidy(wanted) && k < |wanted|
    requires !AllFree(o.chairs, event, Expanded(wanted[..k + 1])) || !Gives(o.tiers, wanted[k])
    ensures !(AllFree(o.chairs, event, Expanded(wanted)) && Room(o.tiers, Expanded(wanted)))
  {
    RoomIsEachTier(o.tiers, wanted);
    assert Gives(o.tiers, wanted[k]) || !EachGives(o.tiers, wanted, |wanted|);
    if AllFree(o.chairs, event, Expanded(wanted)) {
      FreePrefix(o.chairs, event, wanted, k + 1);
    }
  }

  lemma {:induction false} TookAll(
      o: Office, event: string, wanted: seq<DraftItem>, i: nat, tiers: map<string, Tier>, chairs: map<string, Chair>)
    requires Tidy(wanted) && TookSoFar(o, event, wanted, |wanted|, i, tiers, chairs)
    ensures AllFree(o.chairs, event, Expanded(wanted)) && Room(o.tiers, Expanded(wanted))
    ensures tiers == MovedAll(o.tiers, Take, Expanded(wanted))
    ensures chairs == HeldFrom(o.chairs, Seats(Expanded(wanted)), i)
  {
    TakeAll(wanted);
    RoomIsEachTier(o.tiers, wanted);
  }
}
