/**
 Basket normalisation: `NormalizeItems` in domain/order/order.go and `NormalizeSeatIDs` in
 domain/seating/event_seat.go.

 The methods follow the source's loops. What they promise is stated without loops: which
 tiers a basket names, which chairs each tier was asked for, and how many counted tickets.
 Those three do not depend on the order of the lines, so neither does the answer.
 */
module Basket {
  import opened Results
  import opened Text

  const MAX_QUANTITY_PER_ORDER := 10
  const MAX_ITEMS_PER_ORDER := 10

  /** One line a buyer asked for. Naming chairs makes it a seated line. */
  datatype DraftItem = DraftItem(ticketId: string, quantity: int, seatIds: seq<string>) {
    predicate Seated() { seatIds != [] }
  }

  datatype BasketError = InvalidTicket | SeatCountMismatch | MixedSeating | InvalidQuantity | TooManyItems

  // ------------------------------------------------------------- seat ids

  /** The chairs named: trimmed, blanks dropped. */
  ghost function SeatSet(ids: seq<string>): (s: set<string>)
    ensures forall x | x in s :: x != "" && Trimmed(x)
  {
    if ids == [] then {}
    else
      var before, id := SeatSet(ids[..|ids| - 1]), Trim(ids[|ids| - 1]);
      if id == "" then before else before + {id}
  }

  method NormalizeSeatIDs(ids: seq<string>) returns (out: seq<string>)
    ensures out == Listing(SeatSet(ids))
  {
    var seen: set<string> := {};
    out := [];
    for i := 0 to |ids|
      invariant seen == SeatSet(ids[..i])
      invariant Elems(out) == seen && Distinct(out)
    {
      var trimmed := Trim(ids[i]);
      assert ids[..i + 1][..i] == ids[..i];
      if trimmed == "" || trimmed in seen {
        continue;
      }
      ElemsOfSnoc(out, trimmed);
      assert (out + [trimmed])[..|out|] == out;
      seen := seen + {trimmed};
      out := out + [trimmed];
    }
    assert ids[..|ids|] == ids;
    out := Sort(out);
  }

  lemma {:induction false} SeatSetOfConcat(a: seq<string>, b: seq<string>)
    ensures SeatSet(a + b) == SeatSet(a) + SeatSet(b)
    decreases |b|
  {
    if b == [] {
      assert a + b == a;
    } else {
      var n := |b| - 1;
      assert (a + b)[..|a + b| - 1] == a + b[..n];
      SeatSetOfConcat(a, b[..n]);
    }
  }

  /** Ids that are already trimmed and not blank stand for themselves. */
  lemma {:induction false} SeatSetOfTrimmed(ids: seq<string>)
    requires forall k | 0 <= k < |ids| :: ids[k] != "" && Trimmed(ids[k])
    ensures SeatSet(ids) == Elems(ids)
  {
    if ids != [] {
      var n := |ids| - 1;
      SeatSetOfTrimmed(ids[..n]);
      TrimOfTrimmed(ids[n]);
    }
  }

  lemma {:induction false} SeatSetOfListing(s: set<string>)
    requires forall x | x in s :: x != "" && Trimmed(x)
    ensures SeatSet(Listing(s)) == s
  {
    var ids := Listing(s);
    forall k | 0 <= k < |ids|
      ensures ids[k] != "" && Trimmed(ids[k])
    {
      ElemsAreMembers(ids, ids[k]);
    }
    SeatSetOfTrimmed(ids);
  }

  // -------------------------------------------------------------- requests

  /** A line once its ids are trimmed: the tier, the chairs and the number written beside them. */
  datatype Request = Request(tier: string, quantity: int, chairs: set<string>) {
    ghost predicate Seated() { chairs != {} }
    ghost predicate Blank() { tier == "" }
    ghost predicate Mismatched() { Seated() && quantity > 0 && quantity != |Listing(chairs)| }
    /** It buys something: chairs, or a positive count. */
    ghost predicate Kept() { Seated() || quantity > 0 }
    ghost predicate Mixes(other: Request) {
      Kept() && other.Kept() && tier == other.tier && Seated() != other.Seated()
    }
  }

  ghost function Ask(line: DraftItem): Request {
    Request(Trim(line.ticketId), line.quantity, SeatSet(line.seatIds))
  }

  ghost function AskAll(items: seq<DraftItem>): (r: seq<Request>)
    ensures |r| == |items| && forall k | 0 <= k < |r| :: r[k] == Ask(items[k])
  {
    seq(|items|, k requires 0 <= k < |items| => Ask(items[k]))
  }

  // -------------------------------------------------- a basket as a whole

  ghost function Tiers(asked: seq<Request>): set<string> {
    if asked == [] then {}
    else
      var last := asked[|asked| - 1];
      var before := Tiers(asked[..|asked| - 1]);
      if last.Kept() then before + {last.tier} else before
  }

  ghost function SeatUnion(asked: seq<Request>, t: string): set<string> {
    if asked == [] then {}
    else
      var last := asked[|asked| - 1];
      var before := SeatUnion(asked[..|asked| - 1], t);
      if last.tier == t && last.Seated() then before + last.chairs else before
  }

  ghost function Share(r: Request, t: string): nat {
    if r.tier == t && !r.Seated() && r.quantity > 0 then r.quantity else 0
  }

  ghost function CountedSum(asked: seq<Request>, t: string): nat {
    if asked == [] then 0
    else CountedSum(asked[..|asked| - 1], t) + Share(asked[|asked| - 1], t)
  }

  ghost predicate MixesWithAny(asked: seq<Request>, r: Request) {
    exists k :: 0 <= k < |asked| && asked[k].Mixes(r)
  }

  /** The first fault a reader of the lines meets, front to back. */
  ghost function FirstFault(asked: seq<Request>): Option<BasketError> {
    if asked == [] then None
    else
      var before, last := asked[..|asked| - 1], asked[|asked| - 1];
      if FirstFault(before).Some? then FirstFault(before)
      else if last.Blank() then Some(InvalidTicket)
      else if last.Mismatched() then Some(SeatCountMismatch)
      else if MixesWithAny(before, last) then Some(MixedSeating)
      else None
  }

  /** One tier's merged line: the union of its chairs, or the 64-bit sum of its counts. */
  ghost function Entry(asked: seq<Request>, t: string): (d: DraftItem)
    ensures d.ticketId == t
  {
    var chairs := SeatUnion(asked, t);
    if chairs != {} then DraftItem(t, |Listing(chairs)|, Listing(chairs))
    else DraftItem(t, Wrap(CountedSum(asked, t)), [])
  }

  /** One line per tier, in tier order. */
  ghost function Canonical(asked: seq<Request>): (r: seq<DraftItem>)
    ensures |r| == |Listing(Tiers(asked))|
    ensures forall k | 0 <= k < |r| :: r[k] == Entry(asked, Listing(Tiers(asked))[k])
  {
    var tiers := Listing(Tiers(asked));
    seq(|tiers|, k requires 0 <= k < |tiers| => Entry(asked, tiers[k]))
  }

  /** The running total as 64-bit addition leaves it. */
  function Total(items: seq<DraftItem>): int {
    if items == [] then 0
    else Wrap(Total(items[..|items| - 1]) + items[|items| - 1].quantity)
  }

  ghost function Checked(asked: seq<Request>): Result<seq<DraftItem>, BasketError> {
    var fault, merged := FirstFault(asked), Canonical(asked);
    if fault.Some? then Err(fault.value)
    else if merged == [] then Err(InvalidQuantity)
    else if |merged| > MAX_ITEMS_PER_ORDER then Err(TooManyItems)
    else if Total(merged) > MAX_QUANTITY_PER_ORDER then Err(InvalidQuantity)
    else Ok(merged)
  }

  ghost function Normalized(items: seq<DraftItem>): Result<seq<DraftItem>, BasketError> {
    Checked(AskAll(items))
  }

  // ---------------------------------------------------- about the requests

  /** What every line of a faultless basket must be, whichever order they come in. */
  lemma {:induction false} FaultlessMeans(asked: seq<Request>)
    ensures FirstFault(asked).None? <==>
            && (forall k | 0 <= k < |asked| :: !asked[k].Blank() && !asked[k].Mismatched())
            && (forall j, k | 0 <= j < |asked| && 0 <= k < |asked| :: !asked[j].Mixes(asked[k]))
  {
    if asked != [] {
      var n := |asked| - 1;
      var before, last := asked[..n], asked[n];
      FaultlessMeans(before);
      assert forall k | 0 <= k < n :: before[k] == asked[k];
      assert forall k | 0 <= k < n :: last.Mixes(asked[k]) <==> asked[k].Mixes(last);
    }
  }

  lemma {:induction false} ChairIsAsked(asked: seq<Request>, t: string, s: string) returns (k: nat)
    requires s in SeatUnion(asked, t)
    ensures k < |asked| && asked[k].tier == t && s in asked[k].chairs
  {
    k := |asked| - 1;
    if !(asked[k].tier == t && s in asked[k].chairs) {
      k := ChairIsAsked(asked[..k], t, s);
    }
  }

  lemma {:induction false} AskedIsInUnion(asked: seq<Request>, k: nat)
    requires k < |asked|
    ensures asked[k].chairs <= SeatUnion(asked, asked[k].tier)
  {
    if k < |asked| - 1 {
      AskedIsInUnion(asked[..|asked| - 1], k);
    }
  }

  lemma {:induction false} TierIsAsked(asked: seq<Request>, t: string) returns (k: nat)
    requires t in Tiers(asked)
    ensures k < |asked| && asked[k].tier == t && asked[k].Kept()
  {
    k := |asked| - 1;
    if !(asked[k].tier == t && asked[k].Kept()) {
      k := TierIsAsked(asked[..k], t);
    }
  }

  lemma {:induction false} KeptIsInTiers(asked: seq<Request>, k: nat)
    requires k < |asked| && asked[k].Kept()
    ensures asked[k].tier in Tiers(asked)
  {
    if k < |asked| - 1 {
      KeptIsInTiers(asked[..|asked| - 1], k);
    }
  }

  /** In a faultless basket a tier is sold one way on all its lines. */
  lemma {:induction false} ATierSellsOneWay(asked: seq<Request>, k: nat)
    requires FirstFault(asked).None? && k < |asked| && asked[k].Kept()
    ensures asked[k].Seated() <==> SeatUnion(asked, asked[k].tier) != {}
  {
    FaultlessMeans(asked);
    AskedIsInUnion(asked, k);
    var union := SeatUnion(asked, asked[k].tier);
    if union != {} {
      var s :| s in union;
      var j := ChairIsAsked(asked, asked[k].tier, s);
      assert !asked[j].Mixes(asked[k]);
    }
  }

  lemma {:induction false} NothingOfAnAbsentTier(asked: seq<Request>, t: string)
    requires t !in Tiers(asked)
    ensures SeatUnion(asked, t) == {} && CountedSum(asked, t) == 0
  {
    if asked != [] {
      NothingOfAnAbsentTier(asked[..|asked| - 1], t);
    }
  }

  ghost predicate TrimmedChairs(asked: seq<Request>) {
    forall k | 0 <= k < |asked| :: forall s | s in asked[k].chairs :: s != "" && Trimmed(s)
  }

  lemma {:induction false} UnionIsTrimmed(asked: seq<Request>, t: string)
    requires TrimmedChairs(asked)
    ensures forall s | s in SeatUnion(asked, t) :: s != "" && Trimmed(s)
  {
    forall s | s in SeatUnion(asked, t)
      ensures s != "" && Trimmed(s)
    {
      var k := ChairIsAsked(asked, t, s);
    }
  }

  /** A later line never repairs a fault. */
  lemma {:induction false} FaultPersists(asked: seq<Request>, n: nat)
    requires n <= |asked| && FirstFault(asked[..n]).Some?
    ensures FirstFault(asked) == FirstFault(asked[..n])
    decreases |asked|
  {
    if n == |asked| {
      assert asked[..n] == asked;
    } else {
      var before := asked[..|asked| - 1];
      assert before[..n] == asked[..n];
      FaultPersists(before, n);
    }
  }

  // ------------------------------------------------------- one more line

  lemma {:induction false} LineOfAnotherTier(before: seq<Request>, last: Request, t: string)
    requires !last.Kept() || last.tier != t
    ensures Entry(before + [last], t) == Entry(before, t)
  {
    assert (before + [last])[..|before|] == before;
  }

  lemma {:induction false} FirstLineOfATier(before: seq<Request>, last: Request)
    requires IsInt64(last.quantity) && last.Kept() && last.tier !in Tiers(before)
    ensures Tiers(before + [last]) == Tiers(before) + {last.tier}
    ensures Entry(before + [last], last.tier)
         == DraftItem(last.tier, if last.Seated() then |Listing(last.chairs)| else last.quantity, Listing(last.chairs))
    ensures !MixesWithAny(before, last)
  {
    assert (before + [last])[..|before|] == before;
    NothingOfAnAbsentTier(before, last.tier);
    assert SeatUnion(before + [last], last.tier) == last.chairs;
    forall k | 0 <= k < |before| && before[k].Kept()
      ensures before[k].tier != last.tier
    {
      KeptIsInTiers(before, k);
    }
  }

  /** A tier already met is sold one way, and a line mixes exactly when it is sold the other way. */
  lemma {:induction false} MixingShowsInTheEntry(before: seq<Request>, last: Request)
    requires FirstFault(before).None? && last.Kept() && last.tier in Tiers(before)
    ensures MixesWithAny(before, last) <==> (SeatUnion(before, last.tier) != {}) != last.Seated()
  {
    var k := TierIsAsked(before, last.tier);
    ATierSellsOneWay(before, k);
    assert before[k].Mixes(last) <==> before[k].Seated() != last.Seated();
    forall j | 0 <= j < |before| && before[j].Mixes(last)
      ensures (SeatUnion(before, last.tier) != {}) != last.Seated()
    {
      ATierSellsOneWay(before, j);
    }
  }

  lemma {:induction false} EntryIsSeated(asked: seq<Request>, t: string)
    ensures Entry(asked, t).Seated() <==> SeatUnion(asked, t) != {}
    ensures Entry(asked, t).Seated() ==> Entry(asked, t).seatIds == Listing(SeatUnion(asked, t))
    ensures !Entry(asked, t).Seated() ==> Entry(asked, t) == DraftItem(t, Wrap(CountedSum(asked, t)), [])
  {
    var chairs := SeatUnion(asked, t);
  }

  lemma {:induction false} NextSeatedLine(before: seq<Request>, last: Request)
    requires last.Seated()
    ensures SeatUnion(before + [last], last.tier) == SeatUnion(before, last.tier) + last.chairs
    ensures Entry(before + [last], last.tier)
         == DraftItem(last.tier, |Listing(SeatUnion(before, last.tier) + last.chairs)|,
                      Listing(SeatUnion(before, last.tier) + last.chairs))
  {
    assert (before + [last])[..|before|] == before;
  }

  lemma {:induction false} NextCountedLine(before: seq<Request>, last: Request)
    requires last.Kept() && !last.Seated() && SeatUnion(before, last.tier) == {}
    ensures Entry(before + [last], last.tier)
         == DraftItem(last.tier, Wrap(Wrap(CountedSum(before, last.tier)) + last.quantity), [])
  {
    assert (before + [last])[..|before|] == before;
    WrapAdd(CountedSum(before, last.tier), last.quantity);
  }

  // ------------------------------------------------------ sorting by tier

  ghost predicate SortedByTier(items: seq<DraftItem>) {
    |items| <= 1
    || (SortedByTier(items[..|items| - 1]) && Less(items[|items| - 2].ticketId, items[|items| - 1].ticketId))
  }

  predicate DistinctTiers(items: seq<DraftItem>) {
    forall i, j :: 0 <= i < j < |items| ==> items[i].ticketId != items[j].ticketId
  }

  ghost function Quantities(items: seq<DraftItem>): int {
    if items == [] then 0 else Quantities(items[..|items| - 1]) + items[|items| - 1].quantity
  }

  lemma {:induction false} TotalIsTheWrappedSum(items: seq<DraftItem>)
    ensures Total(items) == Wrap(Quantities(items))
  {
    if items != [] {
      TotalIsTheWrappedSum(items[..|items| - 1]);
      WrapAdd(Quantities(items[..|items| - 1]), items[|items| - 1].quantity);
    }
  }

  lemma {:induction false} QuantitiesOfSnoc(items: seq<DraftItem>, x: DraftItem)
    ensures Quantities(items + [x]) == Quantities(items) + x.quantity
  {
    assert (items + [x])[..|items|] == items;
  }

  /** `sort.Slice` by tier id, on lines whose tiers are distinct. */
  method SortByTier(items: seq<DraftItem>) returns (r: seq<DraftItem>)
    requires DistinctTiers(items)
    ensures SortedByTier(r) && |r| == |items|
    ensures forall d :: d in r <==> d in items
    ensures Quantities(r) == Quantities(items)
  {
    r := [];
    for i := 0 to |items|
      invariant SortedByTier(r) && |r| == i
      invariant forall d :: d in r <==> d in items[..i]
      invariant Quantities(r) == Quantities(items[..i])
    {
      assert items[..i + 1] == items[..i] + [items[i]];
      QuantitiesOfSnoc(items[..i], items[i]);
      forall k | 0 <= k < |r|
        ensures r[k].ticketId != items[i].ticketId
      {
        assert r[k] in items[..i];
      }
      r := InsertByTier(items[i], r);
    }
    assert items[..|items|] == items;
  }

  method InsertByTier(x: DraftItem, items: seq<DraftItem>) returns (r: seq<DraftItem>)
    requires SortedByTier(items)
    requires forall k | 0 <= k < |items| :: items[k].ticketId != x.ticketId
    ensures SortedByTier(r) && |r| == |items| + 1
    ensures r[|items|] == x || (items != [] && r[|items|] == items[|items| - 1])
    ensures forall d :: d in r <==> d == x || d in items
    ensures Quantities(r) == Quantities(items) + x.quantity
  {
    if items == [] {
      return [x];
    }
    var n := |items| - 1;
    LessTotal(items[n].ticketId, x.ticketId);
    if Less(items[n].ticketId, x.ticketId) {
      QuantitiesOfSnoc(items, x);
      r := items + [x];
      assert r[..|items|] == items;
      return;
    }
    var head := InsertByTier(x, items[..n]);
    QuantitiesOfSnoc(head, items[n]);
    r := head + [items[n]];
    assert r[..|head|] == head;
    assert items == items[..n] + [items[n]];
  }

  lemma {:induction false} IdsAreTiers(asked: seq<Request>, items: seq<DraftItem>, t: string)
    requires forall d | d in items :: d.ticketId in Tiers(asked)
    requires t in Tiers(asked) ==> Entry(asked, t) in items
    ensures t in Elems(TicketIds(items)) <==> t in Tiers(asked)
  {
    var ids := TicketIds(items);
    ElemsAreMembers(ids, t);
    if t in ids {
      var k :| 0 <= k < |ids| && ids[k] == t;
      assert items[k] in items;
    }
    if t in Tiers(asked) {
      var k :| 0 <= k < |items| && items[k] == Entry(asked, t);
      assert ids[k] == t;
    }
  }

  /** A sorted list of the right entries for the right tiers is the canonical basket. */
  lemma {:induction false} SortedEntriesAreCanonical(asked: seq<Request>, sorted: seq<DraftItem>)
    requires SortedByTier(sorted)
    requires forall d | d in sorted :: d.ticketId in Tiers(asked) && d == Entry(asked, d.ticketId)
    requires forall t | t in Tiers(asked) :: Entry(asked, t) in sorted
    ensures sorted == Canonical(asked)
  {
    var ids := TicketIds(sorted);
    assert Elems(ids) == Tiers(asked) by {
      forall t
        ensures t in Elems(ids) <==> t in Tiers(asked)
      {
        IdsAreTiers(asked, sorted, t);
      }
    }
    TicketIdsAreSorted(sorted);
    SortedListingIsUnique(ids, Listing(Tiers(asked)));
    forall k | 0 <= k < |sorted|
      ensures sorted[k] == Canonical(asked)[k]
    {
      assert sorted[k] in sorted;
    }
  }

  ghost function TicketIds(items: seq<DraftItem>): (ids: seq<string>)
    ensures |ids| == |items| && forall k | 0 <= k < |ids| :: ids[k] == items[k].ticketId
  {
    if items == [] then [] else TicketIds(items[..|items| - 1]) + [items[|items| - 1].ticketId]
  }

  lemma {:induction false} TicketIdsAreSorted(items: seq<DraftItem>)
    requires SortedByTier(items)
    ensures StrictlySorted(TicketIds(items))
  {
    if |items| > 1 {
      var n := |items| - 1;
      TicketIdsAreSorted(items[..n]);
      SortedSnoc(TicketIds(items[..n]), items[n].ticketId);
    }
  }

  // ------------------------------------------------------------- the loop

  /** Each tier's entry is where the index says. */
  ghost predicate Indexed(merged: seq<DraftItem>, index: map<string, nat>) {
    && (forall t | t in index :: index[t] < |merged| && merged[index[t]].ticketId == t)
    && (forall k | 0 <= k < |merged| :: merged[k].ticketId in index && index[merged[k].ticketId] == k)
  }

  ghost predicate AllEntries(asked: seq<Request>, merged: seq<DraftItem>) {
    forall k | 0 <= k < |merged| :: merged[k] == Entry(asked, merged[k].ticketId)
  }

  ghost predicate MergedSoFar(asked: seq<Request>, merged: seq<DraftItem>, index: map<string, nat>) {
    FirstFault(asked).None? && index.Keys == Tiers(asked) && Indexed(merged, index) && AllEntries(asked, merged)
  }

  lemma {:induction false} TiersOfSnoc(before: seq<Request>, last: Request)
    ensures Tiers(before + [last]) == if last.Kept() then Tiers(before) + {last.tier} else Tiers(before)
  {
    assert (before + [last])[..|before|] == before;
  }

  /** The entries of the other tiers stay as they were. */
  lemma {:induction false} OthersStand(before: seq<Request>, last: Request, merged: seq<DraftItem>)
    requires AllEntries(before, merged)
    ensures forall k | 0 <= k < |merged| && (!last.Kept() || merged[k].ticketId != last.tier) ::
              merged[k] == Entry(before + [last], merged[k].ticketId)
  {
    forall k | 0 <= k < |merged| && (!last.Kept() || merged[k].ticketId != last.tier)
      ensures merged[k] == Entry(before + [last], merged[k].ticketId)
    {
      LineOfAnotherTier(before, last, merged[k].ticketId);
    }
  }

  lemma {:induction false} Replaced(merged: seq<DraftItem>, index: map<string, nat>, d: DraftItem)
    requires Indexed(merged, index) && d.ticketId in index
    ensures Indexed(merged[index[d.ticketId] := d], index)
  {
  }

  lemma {:induction false} Added(merged: seq<DraftItem>, index: map<string, nat>, d: DraftItem)
    requires Indexed(merged, index) && d.ticketId !in index
    ensures Indexed(merged + [d], index[d.ticketId := |merged|])
  {
  }

  /** The next line of a tier already met replaces that tier's entry and nothing else. */
  lemma {:induction false} Regrown(before: seq<Request>, last: Request, merged: seq<DraftItem>, index: map<string, nat>, d: DraftItem)
    requires MergedSoFar(before, merged, index)
    requires last.Kept() && last.tier in index
    requires FirstFault(before + [last]).None?
    requires d == Entry(before + [last], last.tier)
    ensures MergedSoFar(before + [last], merged[index[last.tier] := d], index)
  {
    TiersOfSnoc(before, last);
    OthersStand(before, last, merged);
    Replaced(merged, index, d);
  }

  lemma {:induction false} Opened(before: seq<Request>, last: Request, merged: seq<DraftItem>, index: map<string, nat>, d: DraftItem)
    requires MergedSoFar(before, merged, index)
    requires last.Kept() && last.tier !in index
    requires FirstFault(before + [last]).None?
    requires d == Entry(before + [last], last.tier)
    ensures MergedSoFar(before + [last], merged + [d], index[last.tier := |merged|])
  {
    TiersOfSnoc(before, last);
    OthersStand(before, last, merged);
    Added(merged, index, d);
  }

  lemma {:induction false} Skipped(before: seq<Request>, last: Request, merged: seq<DraftItem>, index: map<string, nat>)
    requires MergedSoFar(before, merged, index)
    requires !last.Kept() && FirstFault(before + [last]).None?
    ensures MergedSoFar(before + [last], merged, index)
  {
    TiersOfSnoc(before, last);
    OthersStand(before, last, merged);
  }

  lemma {:induction false} FaultOfSnoc(before: seq<Request>, last: Request)
    requires FirstFault(before).None?
    ensures FirstFault(before + [last])
         == if last.Blank() then Some(InvalidTicket)
            else if last.Mismatched() then Some(SeatCountMismatch)
            else if MixesWithAny(before, last) then Some(MixedSeating)
            else None
    ensures !last.Kept() ==> !MixesWithAny(before, last)
  {
    assert (before + [last])[..|before|] == before;
  }

  /** A line that buys something of a tier already met: merged in, or refused for mixing. */
  method MergeAgain(ghost before: seq<Request>, ghost last: Request, quantity: int, seats: seq<string>, stored: DraftItem)
    returns (fault: Option<BasketError>, entry: DraftItem)
    requires FirstFault(before).None? && !last.Blank() && !last.Mismatched() && last.Kept()
    requires last.tier in Tiers(before) && stored == Entry(before, last.tier)
    requires seats == Listing(last.chairs) && quantity == (if seats == [] then last.quantity else |seats|)
    requires forall s | s in SeatUnion(before, last.tier) + last.chairs :: s != "" && Trimmed(s)
    ensures fault == FirstFault(before + [last])
    ensures fault.None? ==> entry == Entry(before + [last], last.tier)
  {
    MixingShowsInTheEntry(before, last);
    EntryIsSeated(before, last.tier);
    FaultOfSnoc(before, last);
    if stored.Seated() != (|seats| > 0) {
      return Some(MixedSeating), stored;
    }
    if |seats| > 0 {
      NextSeatedLine(before, last);
      SeatSetOfConcat(stored.seatIds, seats);
      SeatSetOfListing(SeatUnion(before, last.tier));
      SeatSetOfListing(last.chairs);
      var union := NormalizeSeatIDs(stored.seatIds + seats);
      return None, DraftItem(stored.ticketId, |union|, union);
    }
    NextCountedLine(before, last);
    return None, stored.(quantity := Wrap(stored.quantity + quantity));
  }

  /** One turn of the loop. */
  method MergeLine(ghost before: seq<Request>, ghost last: Request, line: DraftItem,
                   merged: seq<DraftItem>, index: map<string, nat>)
    returns (fault: Option<BasketError>, merged': seq<DraftItem>, index': map<string, nat>)
    requires MergedSoFar(before, merged, index)
    requires last == Ask(line) && IsInt64(line.quantity)
    requires forall s | s in SeatUnion(before, last.tier) :: s != "" && Trimmed(s)
    ensures fault == FirstFault(before + [last])
    ensures fault.None? ==> MergedSoFar(before + [last], merged', index')
  {
    fault, merged', index' := None, merged, index;
    FaultOfSnoc(before, last);
    var id := Trim(line.ticketId);
    if id == "" {
      fault := Some(InvalidTicket);
      return;
    }
    var seats := NormalizeSeatIDs(line.seatIds);
    var quantity := line.quantity;
    if |seats| > 0 {
      if quantity > 0 && quantity != |seats| {
        fault := Some(SeatCountMismatch);
        return;
      }
      quantity := |seats|;
    }
    if quantity <= 0 {
      Skipped(before, last, merged, index);
      return;
    }
    if id in index {
      var at := index[id];
      var entry;
      fault, entry := MergeAgain(before, last, quantity, seats, merged[at]);
      if fault.None? {
        merged' := merged[at := entry];
        Regrown(before, last, merged, index, entry);
      }
      return;
    }
    FirstLineOfATier(before, last);
    index' := index[id := |merged|];
    merged' := merged + [DraftItem(id, quantity, seats)];
    Opened(before, last, merged, index, DraftItem(id, quantity, seats));
  }

  method NormalizeItems(items: seq<DraftItem>) returns (r: Result<seq<DraftItem>, BasketError>)
    requires forall l | l in items :: IsInt64(l.quantity)
    ensures r == Normalized(items)
  {
    ghost var asked := AskAll(items);
    var merged: seq<DraftItem> := [];
    var index: map<string, nat> := map[];
    for i := 0 to |items|
      invariant MergedSoFar(asked[..i], merged, index)
      invariant TrimmedChairs(asked)
    {
      ghost var before := asked[..i];
      TakeNext(asked, i);
      UnionIsTrimmed(before, asked[i].tier);
      var fault;
      fault, merged, index := MergeLine(before, asked[i], items[i], merged, index);
      if fault.Some? {
        FaultPersists(asked, i + 1);
        return Err(fault.value);
      }
    }
    TakeAll(asked);
    r := Finish(asked, merged, index);
  }

  lemma {:induction false} TotalOfSnoc(items: seq<DraftItem>, x: DraftItem)
    ensures Total(items + [x]) == Wrap(Total(items) + x.quantity)
  {
    assert (items + [x])[..|items|] == items;
  }

  /** The checks on the whole basket, then the sort. */
  method Finish(ghost asked: seq<Request>, merged: seq<DraftItem>, ghost index: map<string, nat>)
    returns (r: Result<seq<DraftItem>, BasketError>)
    requires MergedSoFar(asked, merged, index)
    ensures r == Checked(asked)
  {
    if merged == [] {
      assert Tiers(asked) == {};
      return Err(InvalidQuantity);
    }
    ghost var canonical := Canonical(asked);
    var sorted := SortMerged(asked, merged, index);
    if |merged| > MAX_ITEMS_PER_ORDER {
      return Err(TooManyItems);
    }
    var total := TotalOf(merged);
    TotalIsTheWrappedSum(merged);
    TotalIsTheWrappedSum(sorted);
    if total > MAX_QUANTITY_PER_ORDER {
      return Err(InvalidQuantity);
    }
    return Ok(sorted);
  }

  method TotalOf(items: seq<DraftItem>) returns (total: int)
    ensures total == Total(items)
  {
    total := 0;
    for i := 0 to |items|
      invariant total == Total(items[..i])
    {
      TotalOfSnoc(items[..i], items[i]);
      assert items[..i + 1] == items[..i] + [items[i]];
      total := Wrap(total + items[i].quantity);
    }
    assert items[..|items|] == items;
  }

  method SortMerged(ghost asked: seq<Request>, merged: seq<DraftItem>, ghost index: map<string, nat>)
    returns (sorted: seq<DraftItem>)
    requires MergedSoFar(asked, merged, index)
    ensures sorted == Canonical(asked) && |sorted| == |merged| && Quantities(sorted) == Quantities(merged)
  {
    assert forall k | 0 <= k < |merged| :: index[merged[k].ticketId] == k;
    sorted := SortByTier(merged);
    assert forall t | t in Tiers(asked) :: merged[index[t]] == Entry(asked, t);
    SortedEntriesAreCanonical(asked, sorted);
  }
}
