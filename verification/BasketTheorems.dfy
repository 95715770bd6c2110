/**
 What basket normalisation guarantees, for every basket.

 The order of the lines never matters. Sums are 64-bit, and that is the one way the
 promises of the source bend: the exact conditions are `CapHoldsExactlyWithoutOverflow`
 and `IdempotentExactlyWhenPositive`, and `OverflowSlipsPastTheCap` and
 `OverflowBreaksIdempotence` are baskets on which they bend.
 */
module BasketTheorems {
  import opened Results
  import opened Text
  import opened Basket

  // ----------------------------------------------------- order of the lines

  lemma {:induction false} SameLines(a: seq<DraftItem>, b: seq<DraftItem>, k: nat) returns (j: nat)
    requires multiset(a) == multiset(b) && k < |a|
    ensures j < |b| && b[j] == a[k] && AskAll(b)[j] == AskAll(a)[k]
  {
    assert a[k] in multiset(a);
    j :| 0 <= j < |b| && b[j] == a[k];
  }

  lemma {:induction false} FaultsDoNotMoveWithTheLines(a: seq<DraftItem>, b: seq<DraftItem>)
    requires multiset(a) == multiset(b)
    requires FirstFault(AskAll(a)).None?
    ensures FirstFault(AskAll(b)).None?
  {
    FaultlessMeans(AskAll(a));
    FaultlessMeans(AskAll(b));
    forall k | 0 <= k < |b|
      ensures !AskAll(b)[k].Blank() && !AskAll(b)[k].Mismatched()
    {
      var i := SameLines(b, a, k);
    }
    forall j, k | 0 <= j < |b| && 0 <= k < |b|
      ensures !AskAll(b)[j].Mixes(AskAll(b)[k])
    {
      var i := SameLines(b, a, j);
      var m := SameLines(b, a, k);
    }
  }

  lemma {:induction false} TiersGrowWithTheLines(a: seq<DraftItem>, b: seq<DraftItem>)
    requires multiset(a) == multiset(b)
    ensures Tiers(AskAll(a)) <= Tiers(AskAll(b))
  {
    forall t | t in Tiers(AskAll(a))
      ensures t in Tiers(AskAll(b))
    {
      var k := TierIsAsked(AskAll(a), t);
      var j := SameLines(a, b, k);
      KeptIsInTiers(AskAll(b), j);
    }
  }

  lemma {:induction false} UnionGrowsWithTheLines(a: seq<DraftItem>, b: seq<DraftItem>, t: string)
    requires multiset(a) == multiset(b)
    ensures SeatUnion(AskAll(a), t) <= SeatUnion(AskAll(b), t)
  {
    forall s | s in SeatUnion(AskAll(a), t)
      ensures s in SeatUnion(AskAll(b), t)
    {
      var k := ChairIsAsked(AskAll(a), t, s);
      var j := SameLines(a, b, k);
      AskedIsInUnion(AskAll(b), j);
    }
  }

  lemma {:induction false} SumWithout(asked: seq<Request>, k: nat, t: string)
    requires k < |asked|
    ensures CountedSum(asked, t) == CountedSum(asked[..k] + asked[k + 1..], t) + Share(asked[k], t)
    decreases |asked|
  {
    var n := |asked| - 1;
    if k < n {
      SumWithout(asked[..n], k, t);
      var rest := asked[..k] + asked[k + 1..];
      assert rest[..n - 1] == asked[..n][..k] + asked[..n][k + 1..];
    } else {
      assert asked[..k] + asked[k + 1..] == asked[..n];
    }
  }

  lemma {:induction false} SumsDoNotMoveWithTheLines(a: seq<DraftItem>, b: seq<DraftItem>, t: string)
    requires multiset(a) == multiset(b)
    ensures CountedSum(AskAll(a), t) == CountedSum(AskAll(b), t)
    decreases |a|
  {
    if a != [] {
      var n := |a| - 1;
      var k := SameLines(a, b, n);
      RemovedAlike(a, b, k);
      SumsDoNotMoveWithTheLines(a[..n], b[..k] + b[k + 1..], t);
      SumWithout(AskAll(b), k, t);
      AskedWithout(b, k);
      AskedPrefix(a);
    } else {
      assert |multiset(b)| == |multiset(a)| == 0;
    }
  }

  lemma {:induction false} RemovedAlike(a: seq<DraftItem>, b: seq<DraftItem>, k: nat)
    requires multiset(a) == multiset(b) && a != [] && k < |b| && b[k] == a[|a| - 1]
    ensures multiset(a[..|a| - 1]) == multiset(b[..k] + b[k + 1..])
  {
    assert a == a[..|a| - 1] + [a[|a| - 1]];
    assert b == b[..k] + [b[k]] + b[k + 1..];
    assert multiset(a[..|a| - 1]) == multiset(a) - multiset{b[k]};
    assert multiset(b[..k] + b[k + 1..]) == multiset(b) - multiset{b[k]};
  }

  lemma {:induction false} AskedWithout(b: seq<DraftItem>, k: nat)
    requires k < |b|
    ensures AskAll(b[..k] + b[k + 1..]) == AskAll(b)[..k] + AskAll(b)[k + 1..]
  {
  }

  lemma {:induction false} AskedPrefix(a: seq<DraftItem>)
    requires a != []
    ensures AskAll(a)[..|a| - 1] == AskAll(a[..|a| - 1])
  {
  }

  lemma {:induction false} AcceptedAlike(a: seq<DraftItem>, b: seq<DraftItem>)
    requires multiset(a) == multiset(b) && Normalized(a).Ok?
    ensures Normalized(b) == Normalized(a)
  {
    FaultsDoNotMoveWithTheLines(a, b);
    CanonicalIgnoresLineOrder(a, b);
  }

  /** Whatever order the lines arrive in, the basket is accepted or refused alike, with one result. */
  lemma {:induction false} NormalizationIgnoresLineOrder(a: seq<DraftItem>, b: seq<DraftItem>)
    requires multiset(a) == multiset(b)
    ensures Normalized(a).Ok? <==> Normalized(b).Ok?
    ensures Normalized(a).Ok? ==> Normalized(a) == Normalized(b)
  {
    if Normalized(a).Ok? {
      AcceptedAlike(a, b);
    } else if Normalized(b).Ok? {
      AcceptedAlike(b, a);
    }
  }

  lemma {:induction false} CanonicalIgnoresLineOrder(a: seq<DraftItem>, b: seq<DraftItem>)
    requires multiset(a) == multiset(b)
    ensures Canonical(AskAll(a)) == Canonical(AskAll(b))
  {
    TiersGrowWithTheLines(a, b);
    TiersGrowWithTheLines(b, a);
    assert Tiers(AskAll(a)) == Tiers(AskAll(b));
    var x, y := Canonical(AskAll(a)), Canonical(AskAll(b));
    forall k | 0 <= k < |x|
      ensures x[k] == y[k]
    {
      var t := Listing(Tiers(AskAll(a)))[k];
      UnionGrowsWithTheLines(a, b, t);
      UnionGrowsWithTheLines(b, a, t);
      assert SeatUnion(AskAll(a), t) == SeatUnion(AskAll(b), t);
      SumsDoNotMoveWithTheLines(a, b, t);
    }
  }

  // ------------------------------------------------------- shape of the result

  /** One line per tier in strictly rising tier order; chairs in strictly rising order; nothing invented. */
  lemma {:induction false} ShapeOfTheResult(items: seq<DraftItem>)
    requires Normalized(items).Ok?
    ensures var out := Normalized(items).value;
            && 1 <= |out| <= MAX_ITEMS_PER_ORDER
            && StrictlySorted(TicketIds(out))
            && Elems(TicketIds(out)) == Tiers(AskAll(items))
            && (forall k | 0 <= k < |out| :: RightLine(AskAll(items), out[k]))
  {
    var asked := AskAll(items);
    var out := Canonical(asked);
    assert TicketIds(out) == Listing(Tiers(asked));
    forall k | 0 <= k < |out|
      ensures RightLine(asked, out[k])
    {
      assert RightLine(asked, Entry(asked, Listing(Tiers(asked))[k]));
    }
  }

  /** A line that is its tier's entry; if it is seated, one ticket per chair asked for, in chair order. */
  ghost predicate RightLine(asked: seq<Request>, d: DraftItem) {
    && d == Entry(asked, d.ticketId)
    && (d.Seated() ==>
          && StrictlySorted(d.seatIds) && d.quantity == |d.seatIds|
          && Elems(d.seatIds) == SeatUnion(asked, d.ticketId))
  }

  /** A counted tier's quantity is the sum of its positive lines, up to multiples of 2^64. */
  lemma {:induction false} CountedQuantityIsConserved(items: seq<DraftItem>, d: DraftItem) returns (lost: int)
    requires Normalized(items).Ok? && d in Normalized(items).value && !d.Seated()
    ensures d.quantity == CountedSum(AskAll(items), d.ticketId) + lost * TWO_TO_64
    ensures CountedSum(AskAll(items), d.ticketId) <= MAX_INT64 ==> lost == 0
    ensures SeatUnion(AskAll(items), d.ticketId) == {}
  {
    var k :| 0 <= k < |Normalized(items).value| && Normalized(items).value[k] == d;
    ShapeOfTheResult(items);
    EntryIsSeated(AskAll(items), d.ticketId);
    lost := WrapLoses(CountedSum(AskAll(items), d.ticketId));
  }

  // ---------------------------------------------------------------- the cap

  ghost function Size(asked: seq<Request>, t: string): nat {
    if SeatUnion(asked, t) != {} then |Listing(SeatUnion(asked, t))| else CountedSum(asked, t)
  }

  ghost function SizeOfAll(asked: seq<Request>, tiers: seq<string>): nat {
    if tiers == [] then 0
    else SizeOfAll(asked, tiers[..|tiers| - 1]) + Size(asked, tiers[|tiers| - 1])
  }

  /** How many tickets a basket asks for, in plain arithmetic. */
  ghost function TicketsAsked(items: seq<DraftItem>): nat {
    SizeOfAll(AskAll(items), Listing(Tiers(AskAll(items))))
  }

  lemma {:induction false} SizeOfSnoc(asked: seq<Request>, tiers: seq<string>, t: string)
    ensures SizeOfAll(asked, tiers + [t]) == SizeOfAll(asked, tiers) + Size(asked, t)
  {
    assert (tiers + [t])[..|tiers|] == tiers;
  }

  lemma {:induction false} EntryHasItsSize(asked: seq<Request>, t: string)
    requires Size(asked, t) <= MAX_INT64
    ensures Entry(asked, t).quantity == Size(asked, t)
  {
  }

  lemma {:induction false} QuantitiesAreSizes(asked: seq<Request>, n: nat)
    requires n <= |Canonical(asked)|
    requires SizeOfAll(asked, Listing(Tiers(asked))[..n]) <= MAX_INT64
    ensures Quantities(Canonical(asked)[..n]) == SizeOfAll(asked, Listing(Tiers(asked))[..n])
  {
    if n > 0 {
      var out, tiers := Canonical(asked), Listing(Tiers(asked));
      TakeNext(tiers, n - 1);
      TakeNext(out, n - 1);
      SizeOfSnoc(asked, tiers[..n - 1], tiers[n - 1]);
      QuantitiesOfSnoc(out[..n - 1], out[n - 1]);
      QuantitiesAreSizes(asked, n - 1);
      EntryHasItsSize(asked, tiers[n - 1]);
    }
  }

  /**
   An accepted basket respects the ten-ticket cap exactly when the tickets asked for fit in
   an int64. The lines are added in 64 bits before the cap is compared.
   */
  lemma {:induction false} CapHoldsExactlyWithoutOverflow(items: seq<DraftItem>)
    requires Normalized(items).Ok?
    ensures TicketsAsked(items) <= MAX_QUANTITY_PER_ORDER <==> TicketsAsked(items) <= MAX_INT64
  {
    var asked := AskAll(items);
    if TicketsAsked(items) <= MAX_INT64 {
      TakeAll(Canonical(asked));
      TakeAll(Listing(Tiers(asked)));
      QuantitiesAreSizes(asked, |Canonical(asked)|);
      TotalIsTheWrappedSum(Canonical(asked));
    }
  }

  // ------------------------------------------------------------ idempotence

  lemma {:induction false} SingleLine(asked: seq<Request>, k: nat)
    requires k < |asked|
    requires forall j | 0 <= j < |asked| && j != k :: asked[j].tier != asked[k].tier
    ensures SeatUnion(asked, asked[k].tier) == asked[k].chairs
    ensures CountedSum(asked, asked[k].tier) == Share(asked[k], asked[k].tier)
    ensures asked[k].tier in Tiers(asked) <==> asked[k].Kept()
    decreases |asked|
  {
    var n := |asked| - 1;
    if k < n {
      SingleLine(asked[..n], k);
    } else {
      var t := asked[k].tier;
      if t in Tiers(asked[..n]) {
        var j := TierIsAsked(asked[..n], t);
      }
      NothingOfAnAbsentTier(asked[..n], t);
    }
  }

  /** The lines of a result, asked for again. */
  lemma {:induction false} AskedAgain(items: seq<DraftItem>, k: nat)
    requires Normalized(items).Ok? && k < |Normalized(items).value|
    ensures var out := Normalized(items).value;
            && AskAll(out)[k] == Request(out[k].ticketId, out[k].quantity, SeatUnion(AskAll(items), out[k].ticketId))
            && out[k].ticketId != ""
            && !AskAll(out)[k].Mismatched()
            && (forall j | 0 <= j < |out| && j != k :: out[j].ticketId != out[k].ticketId)
  {
    var asked := AskAll(items);
    var out := Normalized(items).value;
    var tiers := Listing(Tiers(asked));
    var t := out[k].ticketId;
    ElemsAreMembers(tiers, t);
    assert tiers[k] == t;
    var i := TierIsAsked(asked, t);
    FaultlessMeans(asked);
    TrimOfTrimmed(t);
    UnionIsTrimmed(asked, t);
    SeatSetOfListing(SeatUnion(asked, t));
    forall j | 0 <= j < |out| && j != k
      ensures out[j].ticketId != t
    {
      if j < k {
        SortedMeans(tiers, j, k);
      } else {
        SortedMeans(tiers, k, j);
      }
      LessIrreflexive(t);
    }
  }

  /** A merged line is asked for again, and comes out the same, if its quantity came out positive. */
  ghost predicate AskedAlike(out: seq<DraftItem>, k: nat)
    requires k < |out|
  {
    && AskAll(out)[k].tier == out[k].ticketId
    && (out[k].ticketId in Tiers(AskAll(out)) <==> out[k].quantity > 0)
    && (out[k].quantity > 0 ==> Entry(AskAll(out), out[k].ticketId) == out[k])
  }

  lemma {:induction false} LineAgain(items: seq<DraftItem>, k: nat)
    requires Normalized(items).Ok? && k < |Normalized(items).value|
    ensures AskedAlike(Normalized(items).value, k)
  {
    var out := Normalized(items).value;
    var again := AskAll(out);
    AskedAgain(items, k);
    forall j | 0 <= j < |out| && j != k
      ensures again[j].tier != again[k].tier
    {
      AskedAgain(items, j);
    }
    SingleLine(again, k);
  }

  lemma {:induction false} NoFaultAgain(items: seq<DraftItem>)
    requires Normalized(items).Ok?
    ensures FirstFault(AskAll(Normalized(items).value)).None?
  {
    var out := Normalized(items).value;
    var again := AskAll(out);
    forall k | 0 <= k < |out|
      ensures !again[k].Blank() && !again[k].Mismatched()
    {
      AskedAgain(items, k);
    }
    forall j, k | 0 <= j < |out| && 0 <= k < |out|
      ensures !again[j].Mixes(again[k])
    {
      NothingMixesAgain(items, j, k);
    }
    FaultlessMeans(again);
  }

  lemma {:induction false} NothingMixesAgain(items: seq<DraftItem>, j: nat, k: nat)
    requires Normalized(items).Ok? && j < |Normalized(items).value| && k < |Normalized(items).value|
    ensures var again := AskAll(Normalized(items).value); !again[j].Mixes(again[k])
  {
    if j != k {
      AskedAgain(items, j);
      AskedAgain(items, k);
    }
  }

  lemma {:induction false} TierAgain(asked: seq<Request>, t: string)
    requires forall k | 0 <= k < |Canonical(asked)| ::
               AskedAlike(Canonical(asked), k) && Canonical(asked)[k].quantity > 0
    ensures t in Tiers(AskAll(Canonical(asked))) <==> t in Tiers(asked)
  {
    var out, tiers := Canonical(asked), Listing(Tiers(asked));
    ElemsAreMembers(tiers, t);
    if t in Tiers(AskAll(out)) {
      var k := TierIsAsked(AskAll(out), t);
      assert AskedAlike(out, k) && tiers[k] == t;
    }
    if t in tiers {
      var k :| 0 <= k < |tiers| && tiers[k] == t;
      assert AskedAlike(out, k);
    }
  }

  lemma {:induction false} PositiveIsFixed(asked: seq<Request>)
    requires forall k | 0 <= k < |Canonical(asked)| ::
               AskedAlike(Canonical(asked), k) && Canonical(asked)[k].quantity > 0
    ensures Canonical(AskAll(Canonical(asked))) == Canonical(asked)
  {
    var out := Canonical(asked);
    forall t
      ensures t in Tiers(AskAll(out)) <==> t in Tiers(asked)
    {
      TierAgain(asked, t);
    }
    assert Tiers(AskAll(out)) == Tiers(asked);
    forall k | 0 <= k < |out|
      ensures Canonical(AskAll(out))[k] == out[k]
    {
      assert AskedAlike(out, k);
    }
  }

  ghost predicate AllPositive(out: seq<DraftItem>) {
    forall k | 0 <= k < |out| :: out[k].quantity > 0
  }

  /** Of every tier asked for without naming chairs, the quantities add up to something positive in 64 bits. */
  ghost predicate PositiveSums(asked: seq<Request>) {
    forall t | t in Tiers(asked) && SeatUnion(asked, t) == {} :: Wrap(CountedSum(asked, t)) > 0
  }

  lemma {:induction false} PositiveLinesArePositiveSums(asked: seq<Request>)
    ensures AllPositive(Canonical(asked)) <==> PositiveSums(asked)
  {
    var out, tiers := Canonical(asked), Listing(Tiers(asked));
    if AllPositive(out) {
      forall t | t in Tiers(asked) && SeatUnion(asked, t) == {}
        ensures Wrap(CountedSum(asked, t)) > 0
      {
        ElemsAreMembers(tiers, t);
        var k :| 0 <= k < |tiers| && tiers[k] == t;
        assert out[k] == Entry(asked, t);
      }
    }
    if PositiveSums(asked) {
      forall k | 0 <= k < |out|
        ensures out[k].quantity > 0
      {
        var t := tiers[k];
        ElemsAreMembers(tiers, t);
        if SeatUnion(asked, t) != {} {
          ListedChairsAreSome(SeatUnion(asked, t));
        }
      }
    }
  }

  lemma {:induction false} ListedChairsAreSome(s: set<string>)
    requires s != {}
    ensures |Listing(s)| > 0
  {
    var c :| c in s;
    ElemsAreMembers(Listing(s), c);
  }

  lemma {:induction false} FixedExactlyWhenPositive(items: seq<DraftItem>)
    requires Normalized(items).Ok?
    ensures Normalized(Normalized(items).value) == Normalized(items) <==> AllPositive(Normalized(items).value)
  {
    var out := Normalized(items).value;
    if AllPositive(out) {
      PositiveIsNormal(items);
    } else {
      var k :| 0 <= k < |out| && out[k].quantity <= 0;
      LineAgain(items, k);
      LostLine(out, k);
    }
  }

  lemma {:induction false} PositiveIsNormal(items: seq<DraftItem>)
    requires Normalized(items).Ok?
    requires forall k | 0 <= k < |Normalized(items).value| :: Normalized(items).value[k].quantity > 0
    ensures Normalized(Normalized(items).value) == Normalized(items)
  {
    var out := Normalized(items).value;
    forall k | 0 <= k < |out|
      ensures AskedAlike(out, k)
    {
      LineAgain(items, k);
    }
    NoFaultAgain(items);
    PositiveIsFixed(AskAll(items));
  }

  /** A line that is not asked for again is lost. */
  lemma {:induction false} LostLine(out: seq<DraftItem>, k: nat)
    requires k < |out| && AskedAlike(out, k) && out[k].quantity <= 0
    ensures Normalized(out) != Ok(out)
  {
    ElemsAreMembers(TicketIds(out), TicketIds(out)[k]);
    if Normalized(out) == Ok(out) {
      ShapeOfTheResult(out);
    }
  }

  /**
   Normalising twice is normalising once exactly when, for every tier asked for without naming chairs,
   the quantities asked for add up to something positive in 64 bits.
   */
  lemma {:induction false} IdempotentExactlyWhenPositive(items: seq<DraftItem>)
    requires Normalized(items).Ok?
    ensures Normalized(Normalized(items).value) == Normalized(items) <==> PositiveSums(AskAll(items))
  {
    assert Normalized(items).value == Canonical(AskAll(items));
    FixedExactlyWhenPositive(items);
    PositiveLinesArePositiveSums(AskAll(items));
  }

  // ---------------------------------------------------------- normal baskets

  /** A line as normalisation leaves one that asks for something. */
  ghost predicate NormalLine(d: DraftItem) {
    && d.ticketId != "" && Trimmed(d.ticketId)
    && 0 < d.quantity <= MAX_QUANTITY_PER_ORDER
    && (d.Seated() ==>
          && StrictlySorted(d.seatIds) && d.quantity == |d.seatIds|
          && forall k | 0 <= k < |d.seatIds| :: d.seatIds[k] != "" && Trimmed(d.seatIds[k]))
  }

  ghost predicate NormalForm(out: seq<DraftItem>) {
    && 1 <= |out| <= MAX_ITEMS_PER_ORDER
    && SortedByTier(out)
    && (forall k | 0 <= k < |out| :: NormalLine(out[k]))
    && Total(out) <= MAX_QUANTITY_PER_ORDER
  }

  /** A basket in normal form is what normalisation makes of it. */
  lemma {:induction false} NormalFormsStand(out: seq<DraftItem>)
    requires NormalForm(out)
    ensures Normalized(out) == Ok(out)
  {
    var asked := AskAll(out);
    forall k | 0 <= k < |out|
      ensures asked[k].tier == out[k].ticketId && asked[k].tier in Tiers(asked) && Entry(asked, out[k].ticketId) == out[k]
    {
      NormalEntry(out, k);
    }
    forall t | t in Tiers(asked)
      ensures Entry(asked, t) in out
    {
      var k := TierIsAsked(asked, t);
      assert out[k] in out;
    }
    SortedEntriesAreCanonical(asked, out);
    NormalIsFaultless(out);
  }

  lemma {:induction false} NormalAsk(d: DraftItem)
    requires NormalLine(d)
    ensures Ask(d) == Request(d.ticketId, d.quantity, Elems(d.seatIds))
    ensures d.Seated() ==> Listing(Elems(d.seatIds)) == d.seatIds && Ask(d).Seated()
    ensures !d.Seated() ==> !Ask(d).Seated()
  {
    TrimOfTrimmed(d.ticketId);
    SeatSetOfTrimmed(d.seatIds);
    if d.Seated() {
      SortedListingIsUnique(Listing(Elems(d.seatIds)), d.seatIds);
      ElemsAreMembers(d.seatIds, d.seatIds[0]);
    }
  }

  lemma {:induction false} NormalTiersDiffer(out: seq<DraftItem>, j: nat, k: nat)
    requires NormalForm(out) && j < |out| && k < |out| && j != k
    ensures out[j].ticketId != out[k].ticketId
  {
    TicketIdsAreSorted(out);
    if j < k {
      SortedMeans(TicketIds(out), j, k);
    } else {
      SortedMeans(TicketIds(out), k, j);
    }
    LessIrreflexive(out[k].ticketId);
  }

  lemma {:induction false} NormalEntry(out: seq<DraftItem>, k: nat)
    requires NormalForm(out) && k < |out|
    ensures var asked := AskAll(out);
            asked[k].tier == out[k].ticketId && asked[k].tier in Tiers(asked) && Entry(asked, out[k].ticketId) == out[k]
  {
    var asked := AskAll(out);
    NormalAsk(out[k]);
    forall j | 0 <= j < |out| && j != k
      ensures asked[j].tier != asked[k].tier
    {
      NormalAsk(out[j]);
      NormalTiersDiffer(out, j, k);
    }
    SingleLine(asked, k);
  }

  lemma {:induction false} NormalIsFaultless(out: seq<DraftItem>)
    requires NormalForm(out)
    ensures FirstFault(AskAll(out)).None?
  {
    var asked := AskAll(out);
    forall k | 0 <= k < |out|
      ensures !asked[k].Blank() && !asked[k].Mismatched() && asked[k].tier == out[k].ticketId
    {
      NormalAsk(out[k]);
    }
    forall j, k | 0 <= j < |out| && 0 <= k < |out|
      ensures !asked[j].Mixes(asked[k])
    {
      if j != k {
        NormalTiersDiffer(out, j, k);
      }
    }
    FaultlessMeans(asked);
  }

  // ------------------------------------------------------------- overflow

  lemma {:induction false} CountedLines(t: string, quantities: seq<int>, items: seq<DraftItem>)
    requires t != "" && Trimmed(t) && |items| == |quantities| > 0
    requires forall k | 0 <= k < |items| :: items[k] == DraftItem(t, quantities[k], []) && quantities[k] > 0
    ensures FirstFault(AskAll(items)).None? && SeatUnion(AskAll(items), t) == {} && Tiers(AskAll(items)) == {t}
  {
    var asked := AskAll(items);
    TrimOfTrimmed(t);
    forall k | 0 <= k < |items|
      ensures asked[k] == Request(t, quantities[k], {})
    {
    }
    FaultlessMeans(asked);
    if SeatUnion(asked, t) != {} {
      var s :| s in SeatUnion(asked, t);
      var k := ChairIsAsked(asked, t, s);
    }
    KeptIsInTiers(asked, 0);
    forall x | x in Tiers(asked)
      ensures x == t
    {
      var k := TierIsAsked(asked, x);
    }
  }

  lemma {:induction false} SumOfThree(t: string, x: int, y: int, z: int)
    requires t != "" && Trimmed(t) && x > 0 && y > 0 && z > 0
    ensures CountedSum(AskAll([DraftItem(t, x, []), DraftItem(t, y, []), DraftItem(t, z, [])]), t) == x + y + z
  {
    TrimOfTrimmed(t);
    var items := [DraftItem(t, x, []), DraftItem(t, y, []), DraftItem(t, z, [])];
    var asked := AskAll(items);
    assert asked == [Request(t, x, {}), Request(t, y, {}), Request(t, z, {})];
    assert CountedSum(asked[..0], t) == 0;
    assert asked[..1][..0] == asked[..0] && CountedSum(asked[..1], t) == x;
    assert asked[..2][..1] == asked[..1] && CountedSum(asked[..2], t) == x + y;
  }

  lemma {:induction false} OneTierNormalizes(t: string, items: seq<DraftItem>)
    requires FirstFault(AskAll(items)).None? && SeatUnion(AskAll(items), t) == {} && Tiers(AskAll(items)) == {t}
    ensures Canonical(AskAll(items)) == [DraftItem(t, Wrap(CountedSum(AskAll(items), t)), [])]
    ensures Wrap(CountedSum(AskAll(items), t)) <= MAX_QUANTITY_PER_ORDER ==>
              Normalized(items) == Ok(Canonical(AskAll(items)))
  {
    SortedListingIsUnique(Listing({t}), [t]);
    assert |Listing({t})| == 1;
    var out := Canonical(AskAll(items));
    assert Total(out[..0]) == 0;
    assert Total(out) == out[0].quantity;
  }

  /** Three lines asking for far more tickets than exist pass as an order for three. */
  lemma {:induction false} OverflowSlipsPastTheCap(t: string)
    requires t != "" && Trimmed(t)
    ensures var items := [DraftItem(t, MAX_INT64, []), DraftItem(t, MAX_INT64, []), DraftItem(t, 5, [])];
            && Normalized(items) == Ok([DraftItem(t, 3, [])])
            && CountedSum(AskAll(items), t) > MAX_QUANTITY_PER_ORDER
  {
    var items := [DraftItem(t, MAX_INT64, []), DraftItem(t, MAX_INT64, []), DraftItem(t, 5, [])];
    CountedLines(t, [MAX_INT64, MAX_INT64, 5], items);
    SumOfThree(t, MAX_INT64, MAX_INT64, 5);
    OneTierNormalizes(t, items);
    WrapPeriodic(3, 1);
  }

  /** The same trick with a smaller third line leaves a negative quantity, which a second pass refuses. */
  lemma {:induction false} OverflowBreaksIdempotence(t: string)
    requires t != "" && Trimmed(t)
    ensures var items := [DraftItem(t, MAX_INT64, []), DraftItem(t, MAX_INT64, []), DraftItem(t, 1, [])];
            && Normalized(items) == Ok([DraftItem(t, -1, [])])
            && Normalized([DraftItem(t, -1, [])]) != Normalized(items)
  {
    var items := [DraftItem(t, MAX_INT64, []), DraftItem(t, MAX_INT64, []), DraftItem(t, 1, [])];
    CountedLines(t, [MAX_INT64, MAX_INT64, 1], items);
    SumOfThree(t, MAX_INT64, MAX_INT64, 1);
    OneTierNormalizes(t, items);
    WrapPeriodic(-1, 1);
    assert DraftItem(t, -1, []) in Normalized(items).value;
    IdempotentExactlyWhenPositive(items);
  }
}
