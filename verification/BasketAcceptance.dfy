/**
 Which baskets are accepted, said of the lines as the buyer sent them, and why the others are not.
 (`NormalizeItems` in domain/order/order.go)
 */
module BasketAcceptance {
  import opened Results
  import opened Text
  import opened Basket
  import opened BasketTheorems

  // -------------------------------------------------------- the raw lines

  /** The distinct chairs a line names. */
  ghost function Chairs(line: DraftItem): set<string> {
    set k | 0 <= k < |line.seatIds| && Trim(line.seatIds[k]) != "" :: Trim(line.seatIds[k])
  }

  /** A line buys chairs, or some number of tickets; or else it is left out. */
  ghost predicate Buys(line: DraftItem) { Chairs(line) != {} || line.quantity > 0 }

  /** The tiers bought. */
  ghost function Bought(items: seq<DraftItem>): set<string> {
    set k | 0 <= k < |items| && Buys(items[k]) :: Trim(items[k].ticketId)
  }

  /** The chairs bought, each in its tier, however many lines name it. */
  ghost function ChairsBought(items: seq<DraftItem>): set<(string, string)> {
    set k, c | 0 <= k < |items| && c in Chairs(items[k]) :: (Trim(items[k].ticketId), c)
  }

  /** The tickets bought without naming chairs. */
  ghost function Counted(items: seq<DraftItem>): nat {
    if items == [] then 0
    else
      var last := items[|items| - 1];
      Counted(items[..|items| - 1]) + if Chairs(last) == {} && last.quantity > 0 then last.quantity else 0
  }

  /** No tier is left blank, no count disagrees with the chairs beside it, and no tier is bought both ways. */
  ghost predicate SoundLines(items: seq<DraftItem>) {
    && (forall k | 0 <= k < |items| :: Trim(items[k].ticketId) != "" && CountAgrees(items[k]))
    && (forall j, k | 0 <= j < |items| && 0 <= k < |items| :: !BothWays(items[j], items[k]))
  }

  /** A count left out, or not positive, is derived from the chairs. */
  ghost predicate CountAgrees(line: DraftItem) {
    Chairs(line) == {} || line.quantity <= 0 || line.quantity == |Chairs(line)|
  }

  ghost predicate BothWays(seated: DraftItem, counted: DraftItem) {
    && Trim(seated.ticketId) == Trim(counted.ticketId)
    && Chairs(seated) != {} && Chairs(counted) == {} && counted.quantity > 0
  }

  // ----------------------------------------------------- requests and lines

  lemma {:induction false} SeatSetIsChairs(ids: seq<string>)
    ensures SeatSet(ids) == set k | 0 <= k < |ids| && Trim(ids[k]) != "" :: Trim(ids[k])
  {
    var chairs := set k | 0 <= k < |ids| && Trim(ids[k]) != "" :: Trim(ids[k]);
    if ids != [] {
      var n := |ids| - 1;
      SeatSetIsChairs(ids[..n]);
      forall c
        ensures c in SeatSet(ids) <==> c in chairs
      {
        if c in SeatSet(ids[..n]) {
          var k :| 0 <= k < n && Trim(ids[..n][k]) != "" && Trim(ids[..n][k]) == c;
          assert Trim(ids[k]) == c;
        }
        if c in chairs {
          var k :| 0 <= k < |ids| && Trim(ids[k]) != "" && Trim(ids[k]) == c;
          assert k < n ==> ids[..n][k] == ids[k];
        }
      }
    }
  }

  lemma {:induction false} ListingCounts(xs: seq<string>)
    requires StrictlySorted(xs)
    ensures |xs| == |Elems(xs)|
  {
    if xs != [] {
      ListingCounts(xs[..|xs| - 1]);
      LastIsLargest(xs);
    }
  }

  lemma {:induction false} AskIs(line: DraftItem)
    ensures Ask(line) == Request(Trim(line.ticketId), line.quantity, Chairs(line))
    ensures |Listing(Ask(line).chairs)| == |Chairs(line)|
    ensures Ask(line).Mismatched() <==> !CountAgrees(line)
  {
    SeatSetIsChairs(line.seatIds);
    ListingCounts(Listing(Chairs(line)));
  }

  lemma {:induction false} PairIs(a: DraftItem, b: DraftItem)
    ensures Ask(a).Mixes(Ask(b)) <==> BothWays(a, b) || BothWays(b, a)
  {
    AskIs(a);
    AskIs(b);
  }

  lemma {:induction false} FaultlessIsSound(items: seq<DraftItem>)
    requires FirstFault(AskAll(items)).None?
    ensures SoundLines(items)
  {
    var asked := AskAll(items);
    FaultlessMeans(asked);
    forall k | 0 <= k < |items|
      ensures Trim(items[k].ticketId) != "" && CountAgrees(items[k])
    {
      assert !asked[k].Blank() && !asked[k].Mismatched();
      AskIs(items[k]);
    }
    forall j, k | 0 <= j < |items| && 0 <= k < |items|
      ensures !BothWays(items[j], items[k])
    {
      assert !asked[j].Mixes(asked[k]);
      PairIs(items[j], items[k]);
    }
  }

  lemma {:induction false} SoundHasNoFault(items: seq<DraftItem>)
    requires SoundLines(items)
    ensures FirstFault(AskAll(items)).None?
  {
    var asked := AskAll(items);
    forall k | 0 <= k < |items|
      ensures !asked[k].Blank() && !asked[k].Mismatched()
    {
      AskIs(items[k]);
    }
    forall j, k | 0 <= j < |items| && 0 <= k < |items|
      ensures !asked[j].Mixes(asked[k])
    {
      assert !BothWays(items[j], items[k]) && !BothWays(items[k], items[j]);
      PairIs(items[j], items[k]);
    }
    FaultlessMeans(asked);
  }

  lemma {:induction false} SoundIsFaultless(items: seq<DraftItem>)
    ensures SoundLines(items) <==> FirstFault(AskAll(items)).None?
  {
    if SoundLines(items) {
      SoundHasNoFault(items);
    } else if FirstFault(AskAll(items)).None? {
      FaultlessIsSound(items);
    }
  }

  lemma {:induction false} TiersAreBought(items: seq<DraftItem>)
    ensures Tiers(AskAll(items)) == Bought(items)
    ensures |Listing(Tiers(AskAll(items)))| == |Bought(items)|
  {
    var asked := AskAll(items);
    forall t
      ensures t in Tiers(asked) <==> t in Bought(items)
    {
      if t in Tiers(asked) {
        var k := TierIsAsked(asked, t);
        AskIs(items[k]);
        assert Buys(items[k]) && Trim(items[k].ticketId) == t;
      }
      if t in Bought(items) {
        var k :| 0 <= k < |items| && Buys(items[k]) && Trim(items[k].ticketId) == t;
        AskIs(items[k]);
        KeptIsInTiers(asked, k);
      }
    }
    ListingCounts(Listing(Tiers(asked)));
  }

  // ------------------------------------------------------------- the count

  /** What the tiers listed were asked for without chairs. */
  ghost function SumOver(asked: seq<Request>, tiers: seq<string>): nat {
    if tiers == [] then 0 else SumOver(asked, tiers[..|tiers| - 1]) + CountedSum(asked, tiers[|tiers| - 1])
  }

  lemma {:induction false} SumOverNothing(tiers: seq<string>)
    ensures SumOver([], tiers) == 0
  {
    if tiers != [] {
      SumOverNothing(tiers[..|tiers| - 1]);
    }
  }

  /** A line's share is its own tier's. */
  lemma {:induction false} SumOverOneMore(asked: seq<Request>, tiers: seq<string>)
    requires asked != [] && StrictlySorted(tiers)
    ensures var last := asked[|asked| - 1];
            SumOver(asked, tiers)
            == SumOver(asked[..|asked| - 1], tiers) + if last.tier in Elems(tiers) then Share(last, last.tier) else 0
  {
    if tiers != [] {
      SumOverOneMore(asked, tiers[..|tiers| - 1]);
      LastIsLargest(tiers);
    }
  }

  lemma {:induction false} BoughtGrows(items: seq<DraftItem>, t: string)
    requires items != [] && t in Bought(items[..|items| - 1])
    ensures t in Bought(items)
  {
    var n := |items| - 1;
    var k :| 0 <= k < n && Buys(items[..n][k]) && Trim(items[..n][k].ticketId) == t;
    assert Buys(items[k]);
  }

  lemma {:induction false} ShareIs(line: DraftItem)
    ensures Share(Ask(line), Ask(line).tier) == if Chairs(line) == {} && line.quantity > 0 then line.quantity else 0
  {
    AskIs(line);
  }

  lemma {:induction false} SumOverIsCounted(items: seq<DraftItem>, tiers: seq<string>)
    requires StrictlySorted(tiers) && Bought(items) <= Elems(tiers)
    ensures SumOver(AskAll(items), tiers) == Counted(items)
  {
    if items == [] {
      SumOverNothing(tiers);
    } else {
      var n := |items| - 1;
      assert AskAll(items)[..n] == AskAll(items[..n]);
      forall t | t in Bought(items[..n])
        ensures t in Elems(tiers)
      {
        BoughtGrows(items, t);
      }
      SumOverIsCounted(items[..n], tiers);
      SumOverOneMore(AskAll(items), tiers);
      ShareIs(items[n]);
      if Buys(items[n]) {
        assert Trim(items[n].ticketId) in Bought(items);
      }
    }
  }

  // ------------------------------------------------------------- the chairs

  /** The chairs bought in the tiers of a set. */
  ghost function ChairsIn(items: seq<DraftItem>, tiers: set<string>): set<(string, string)> {
    set p | p in ChairsBought(items) && p.0 in tiers
  }

  lemma {:induction false} UnionIsChairs(items: seq<DraftItem>, t: string, c: string)
    ensures c in SeatUnion(AskAll(items), t) <==> (t, c) in ChairsBought(items)
  {
    var asked := AskAll(items);
    if c in SeatUnion(asked, t) {
      var k := ChairIsAsked(asked, t, c);
      AskIs(items[k]);
    }
    if (t, c) in ChairsBought(items) {
      var k :| 0 <= k < |items| && c in Chairs(items[k]) && Trim(items[k].ticketId) == t;
      AskIs(items[k]);
      AskedIsInUnion(asked, k);
    }
  }

  lemma {:induction false} PairedCounts(t: string, s: set<string>)
    ensures |set c | c in s :: (t, c)| == |s|
  {
    if s != {} {
      var x :| x in s;
      PairedCounts(t, s - {x});
      assert (set c | c in s :: (t, c)) == (set c | c in s - {x} :: (t, c)) + {(t, x)};
    } else {
      assert (set c | c in s :: (t, c)) == {};
    }
  }

  lemma {:induction false} OneMoreTier(items: seq<DraftItem>, tiers: set<string>, t: string)
    requires t !in tiers
    ensures |ChairsIn(items, tiers + {t})| == |ChairsIn(items, tiers)| + |SeatUnion(AskAll(items), t)|
  {
    var s := SeatUnion(AskAll(items), t);
    var pairs := set c | c in s :: (t, c);
    forall p
      ensures p in ChairsIn(items, tiers + {t}) <==> p in ChairsIn(items, tiers) || p in pairs
    {
      UnionIsChairs(items, t, p.1);
      assert p == (p.0, p.1);
    }
    assert ChairsIn(items, tiers + {t}) == ChairsIn(items, tiers) + pairs;
    assert ChairsIn(items, tiers) !! pairs;
    PairedCounts(t, s);
  }

  /** Counted tickets and chairs, tier by tier; in sound lines each tier is one or the other. */
  lemma {:induction false} SizesAdd(items: seq<DraftItem>, tiers: seq<string>)
    requires StrictlySorted(tiers)
    requires forall t | t in Elems(tiers) :: SeatUnion(AskAll(items), t) == {} || CountedSum(AskAll(items), t) == 0
    ensures SizeOfAll(AskAll(items), tiers) == SumOver(AskAll(items), tiers) + |ChairsIn(items, Elems(tiers))|
  {
    if tiers == [] {
      assert ChairsIn(items, {}) == {};
    } else {
      var n := |tiers| - 1;
      SizesAdd(items, tiers[..n]);
      LastIsLargest(tiers);
      OneMoreTier(items, Elems(tiers[..n]), tiers[n]);
      ListingCounts(Listing(SeatUnion(AskAll(items), tiers[n])));
    }
  }

  lemma {:induction false} NoSumWhereSeated(asked: seq<Request>, t: string)
    requires FirstFault(asked).None? && SeatUnion(asked, t) != {}
    ensures CountedSum(asked, t) == 0
  {
    FaultlessMeans(asked);
    var s :| s in SeatUnion(asked, t);
    var j := ChairIsAsked(asked, t, s);
    forall k | 0 <= k < |asked|
      ensures Share(asked[k], t) == 0
    {
      assert !asked[j].Mixes(asked[k]);
    }
    NoShares(asked, t);
  }

  lemma {:induction false} NoShares(asked: seq<Request>, t: string)
    requires forall k | 0 <= k < |asked| :: Share(asked[k], t) == 0
    ensures CountedSum(asked, t) == 0
  {
    if asked != [] {
      NoShares(asked[..|asked| - 1], t);
    }
  }

  /** How many tickets a basket of sound lines asks for: those counted, and one per chair. */
  lemma {:induction false} TicketsAre(items: seq<DraftItem>)
    requires SoundLines(items)
    ensures TicketsAsked(items) == Counted(items) + |ChairsBought(items)|
  {
    var asked := AskAll(items);
    var tiers := Listing(Tiers(asked));
    SoundIsFaultless(items);
    TiersAreBought(items);
    forall t | t in Elems(tiers)
      ensures SeatUnion(asked, t) == {} || CountedSum(asked, t) == 0
    {
      if SeatUnion(asked, t) != {} {
        NoSumWhereSeated(asked, t);
      }
    }
    SizesAdd(items, tiers);
    SumOverIsCounted(items, tiers);
    forall p | p in ChairsBought(items)
      ensures p.0 in Bought(items)
    {
      var k, c :| 0 <= k < |items| && c in Chairs(items[k]) && (Trim(items[k].ticketId), c) == p;
      assert Buys(items[k]);
    }
    assert ChairsIn(items, Elems(tiers)) == ChairsBought(items);
  }

  // -------------------------------------------------------- the total, wrapped

  lemma {:induction false} WrapOfSum(x: int, y: int)
    ensures Wrap(x + Wrap(y)) == Wrap(x + y)
  {
    WrapAdd(y, x);
  }

  lemma {:induction false} TotalsAreSizes(asked: seq<Request>, out: seq<DraftItem>, tiers: seq<string>)
    requires |out| == |tiers|
    requires forall k | 0 <= k < |out| :: out[k] == Entry(asked, tiers[k])
    ensures Wrap(Quantities(out)) == Wrap(SizeOfAll(asked, tiers))
  {
    if out != [] {
      var n := |out| - 1;
      TotalsAreSizes(asked, out[..n], tiers[..n]);
      EntryWraps(asked, tiers[n]);
      OneMoreTotal(asked, out, tiers, Size(asked, tiers[n]));
    }
  }

  lemma {:induction false} OneMoreTotal(asked: seq<Request>, out: seq<DraftItem>, tiers: seq<string>, size: int)
    requires |out| == |tiers| > 0 && size == Size(asked, tiers[|tiers| - 1])
    requires Wrap(Quantities(out[..|out| - 1])) == Wrap(SizeOfAll(asked, tiers[..|tiers| - 1]))
    requires Wrap(out[|out| - 1].quantity) == Wrap(size)
    ensures Wrap(Quantities(out)) == Wrap(SizeOfAll(asked, tiers))
  {
    OneMoreWraps(Quantities(out[..|out| - 1]), SizeOfAll(asked, tiers[..|tiers| - 1]), out[|out| - 1].quantity, size);
  }

  lemma {:induction false} EntryWraps(asked: seq<Request>, t: string)
    ensures Wrap(Entry(asked, t).quantity) == Wrap(Size(asked, t))
  {
  }

  lemma {:induction false} OneMoreWraps(q: int, s: int, x: int, y: int)
    requires Wrap(q) == Wrap(s) && Wrap(x) == Wrap(y)
    ensures Wrap(q + x) == Wrap(s + y)
  {
    WrapAdd(q, x);
    WrapAdd(s, x);
    WrapOfSum(s, x);
    WrapOfSum(s, y);
  }

  // ------------------------------------------------------------- theorems

  lemma {:induction false} TotalIs(items: seq<DraftItem>)
    requires SoundLines(items)
    ensures Total(Canonical(AskAll(items))) == Wrap(Counted(items) + |ChairsBought(items)|)
  {
    TicketsAre(items);
    TotalsAreSizes(AskAll(items), Canonical(AskAll(items)), Listing(Tiers(AskAll(items))));
    TotalIsTheWrappedSum(Canonical(AskAll(items)));
  }

  /** Sound lines are refused only as a whole: for buying nothing, too many tiers, or too many tickets in 64 bits. */
  lemma {:induction false} SoundLinesAre(items: seq<DraftItem>)
    requires SoundLines(items)
    ensures Normalized(items)
            == if |Bought(items)| == 0 then Err(InvalidQuantity)
               else if |Bought(items)| > 10 then Err(TooManyItems)
               else if Wrap(Counted(items) + |ChairsBought(items)|) > 10 then Err(InvalidQuantity)
               else Ok(Canonical(AskAll(items)))
  {
    SoundIsFaultless(items);
    TiersAreBought(items);
    TotalIs(items);
    var merged := Canonical(AskAll(items));
    assert |merged| == |Bought(items)|;
    assert merged == [] <==> |merged| == 0;
  }

  /** A basket is accepted exactly when its lines are sound, something is bought, and both caps hold. */
  lemma {:induction false} AcceptedExactlyWhen(items: seq<DraftItem>)
    ensures Normalized(items).Ok? <==>
            && SoundLines(items)
            && (exists k :: 0 <= k < |items| && Buys(items[k]))
            && |Bought(items)| <= 10 && Wrap(Counted(items) + |ChairsBought(items)|) <= 10
  {
    SoundIsFaultless(items);
    if SoundLines(items) {
      SoundLinesAre(items);
      if k :| 0 <= k < |items| && Buys(items[k]) {
        assert Trim(items[k].ticketId) in Bought(items);
        assert |Bought(items)| != 0;
      } else {
        assert Bought(items) == {};
      }
    }
  }

  /** The first unsound line is why the others are refused. */
  lemma {:induction false} RefusedForTheFirstFault(items: seq<DraftItem>, k: nat)
    requires k < |items| && SoundLines(items[..k]) && !SoundLines(items[..k + 1])
    ensures Normalized(items)
            == Err(if Trim(items[k].ticketId) == "" then InvalidTicket
                   else if Chairs(items[k]) != {} && items[k].quantity > 0 && items[k].quantity != |Chairs(items[k])|
                        then SeatCountMismatch
                   else MixedSeating)
  {
    var asked := AskAll(items);
    assert AskAll(items[..k]) == asked[..k] && AskAll(items[..k + 1]) == asked[..k + 1];
    SoundIsFaultless(items[..k]);
    SoundIsFaultless(items[..k + 1]);
    FaultPersists(asked, k + 1);
    TakeNext(asked, k);
    FaultOfSnoc(asked[..k], asked[k]);
    AskIs(items[k]);
  }

  // -------------------------------------------------- counts beside chairs

  /** Two readings of the same lines that differ in the counts beside chairs, if in anything. */
  ghost predicate AlikeButForCounts(a: seq<Request>, b: seq<Request>) {
    && |a| == |b|
    && forall k | 0 <= k < |a| ::
         a[k].tier == b[k].tier && a[k].chairs == b[k].chairs && (!a[k].Seated() ==> a[k].quantity == b[k].quantity)
  }

  lemma {:induction false} CountsBesideChairsAddNothing(a: seq<Request>, b: seq<Request>, t: string)
    requires AlikeButForCounts(a, b)
    ensures Tiers(a) == Tiers(b) && SeatUnion(a, t) == SeatUnion(b, t) && CountedSum(a, t) == CountedSum(b, t)
  {
    if a != [] {
      var n := |a| - 1;
      assert AlikeButForCounts(a[..n], b[..n]);
      CountsBesideChairsAddNothing(a[..n], b[..n], t);
    }
  }

  /**
   The count beside chairs is derived: in an accepted basket it may be left at zero, be anything negative,
   or be the number of distinct chairs named, and the answer is the same.
   */
  lemma {:induction false} CountsBesideChairsAreDerived(items: seq<DraftItem>, k: nat, quantity: int)
    requires Normalized(items).Ok? && k < |items| && Chairs(items[k]) != {}
    requires quantity <= 0 || quantity == |Chairs(items[k])|
    ensures Normalized(items[k := items[k].(quantity := quantity)]) == Normalized(items)
  {
    var other := items[k := items[k].(quantity := quantity)];
    AskIs(items[k]);
    AskIs(other[k]);
    assert Chairs(other[k]) == Chairs(items[k]);
    assert AlikeButForCounts(AskAll(items), AskAll(other));
    FaultlessAlike(AskAll(items), AskAll(other), k);
    SameCanonical(AskAll(items), AskAll(other));
  }

  lemma {:induction false} FaultlessAlike(a: seq<Request>, b: seq<Request>, k: nat)
    requires AlikeButForCounts(a, b) && FirstFault(a).None? && k < |a|
    requires !b[k].Mismatched() && forall j | 0 <= j < |a| && j != k :: a[j] == b[j]
    ensures FirstFault(b).None?
  {
    FaultlessMeans(a);
    FaultlessMeans(b);
    forall i, j | 0 <= i < |b| && 0 <= j < |b|
      ensures !b[i].Mixes(b[j])
    {
      assert !a[i].Mixes(a[j]);
    }
  }

  lemma {:induction false} SameCanonical(a: seq<Request>, b: seq<Request>)
    requires AlikeButForCounts(a, b)
    ensures Canonical(a) == Canonical(b)
  {
    CountsBesideChairsAddNothing(a, b, "");
    forall k | 0 <= k < |Canonical(a)|
      ensures Canonical(a)[k] == Canonical(b)[k]
    {
      CountsBesideChairsAddNothing(a, b, Listing(Tiers(a))[k]);
    }
  }
}
