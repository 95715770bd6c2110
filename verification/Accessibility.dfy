/**
 The accessibility quotas of a room (domain/seating/generator.go, `CheckCompliance` and `quota`) and
 the chairs suggested to meet them (domain/seating/accessibility.go).
 */
module Accessibility {
  import opened Results
  import opened Text
  import opened SeatRows

  // ------------------------------------------------------------------- quotas

  datatype Compliance = Compliance(
    capacity: int, requiredWheelchair: int, requiredReduced: int, requiredObese: int,
    haveWheelchair: int, haveReduced: int, haveObese: int, haveCompanion: int)
  {
    predicate Compliant() {
      haveWheelchair >= requiredWheelchair && haveReduced >= requiredReduced && haveObese >= requiredObese
      && haveCompanion >= requiredWheelchair
    }
  }

  function Quota(capacity: int): int {
    if capacity <= 0 then 0
    else
      var required := if capacity <= 1000 then (capacity * 2 + 99) / 100 else 20 + (capacity - 1000 + 99) / 100;
      if required < 1 then 1 else required
  }

  /** Two per cent rounded up to a thousand places, one per cent of the rest after; never lower for a larger room. */
  lemma {:induction false} QuotaIsTheDecrees(capacity: int, larger: int)
    requires 0 < capacity <= larger
    ensures 1 <= Quota(capacity) <= Quota(larger)
    ensures capacity <= 1000 ==> 100 * (Quota(capacity) - 1) < 2 * capacity <= 100 * Quota(capacity)
    ensures capacity > 1000 ==> 100 * (Quota(capacity) - 21) < capacity - 1000 <= 100 * (Quota(capacity) - 20)
  {
  }

  function Count(seats: seq<Seat>, kind: SeatKind): nat {
    if seats == [] then 0
    else Count(seats[..|seats| - 1], kind) + if seats[|seats| - 1].kind == kind then 1 else 0
  }

  /** What a room is owed and has. An obese seat counts as a reduced-mobility seat too. */
  function Measured(seats: seq<Seat>, standing: int): Compliance {
    var capacity := |seats| + standing;
    var required := Quota(capacity);
    Compliance(capacity, required, required, if required > 0 && required / 2 < 1 then 1 else required / 2,
               Count(seats, Wheelchair), Count(seats, ReducedMobility) + Count(seats, Obese), Count(seats, Obese),
               Count(seats, Companion))
  }

  method CheckCompliance(seats: seq<Seat>, standing: int) returns (report: Compliance)
    ensures report == Measured(seats, standing)
  {
    var wheelchair, reduced, obese, companion := 0, 0, 0, 0;
    for k := 0 to |seats|
      invariant wheelchair == Count(seats[..k], Wheelchair) && companion == Count(seats[..k], Companion)
      invariant obese == Count(seats[..k], Obese)
      invariant reduced == Count(seats[..k], ReducedMobility) + Count(seats[..k], Obese)
    {
      assert seats[..k + 1][..k] == seats[..k];
      match seats[k].kind {
        case Wheelchair => wheelchair := wheelchair + 1;
        case ReducedMobility => reduced := reduced + 1;
        case Obese => reduced, obese := reduced + 1, obese + 1;
        case Companion => companion := companion + 1;
        case _ =>
      }
    }
    TakeAll(seats);
    var capacity := |seats| + standing;
    var owed := Quota(capacity);
    var owedObese := owed / 2;
    if owed > 0 && owedObese < 1 {
      owedObese := 1;
    }
    return Compliance(capacity, owed, owed, owedObese, wheelchair, reduced, obese, companion);
  }

  // ----------------------------------------------------------------- back rows

  function LastRow(seats: seq<Seat>, section: string): nat {
    if seats == [] then 0
    else
      var before, last := LastRow(seats[..|seats| - 1], section), seats[|seats| - 1];
      if last.section == section && last.rowOrder > before then last.rowOrder else before
  }

  /** The chairs of the sections' last rows, as the room lists them. */
  function BackOf(seats: seq<Seat>, all: seq<Seat>): seq<Seat> {
    if seats == [] then []
    else
      var last := seats[|seats| - 1];
      BackOf(seats[..|seats| - 1], all) + if last.rowOrder == LastRow(all, last.section) then [last] else []
  }

  predicate InBackRow(seats: seq<Seat>, seat: Seat) {
    seat in seats && seat.rowOrder == LastRow(seats, seat.section)
  }

  /** Nothing in the row is further back. */
  lemma {:induction false} LastRowIsLast(seats: seq<Seat>, k: nat)
    requires k < |seats|
    ensures seats[k].rowOrder <= LastRow(seats, seats[k].section)
  {
    if k < |seats| - 1 {
      LastRowIsLast(seats[..|seats| - 1], k);
    }
  }

  method LastRows(seats: seq<Seat>) returns (lastRow: map<string, nat>)
    ensures forall k | 0 <= k < |seats| && seats[k].section in lastRow :: lastRow[seats[k].section] == LastRow(seats, seats[k].section)
    ensures forall k | 0 <= k < |seats| && seats[k].section !in lastRow :: LastRow(seats, seats[k].section) == 0
  {
    lastRow := map[];
    for k := 0 to |seats|
      invariant forall section :: (if section in lastRow then lastRow[section] else 0) == LastRow(seats[..k], section)
    {
      assert seats[..k + 1][..k] == seats[..k];
      var section := seats[k].section;
      if seats[k].rowOrder > (if section in lastRow then lastRow[section] else 0) {
        lastRow := lastRow[section := seats[k].rowOrder];
      }
    }
    TakeAll(seats);
  }

  function SumOfOrders(seats: seq<Seat>, section: string): int {
    if seats == [] then 0
    else
      var last := seats[|seats| - 1];
      SumOfOrders(seats[..|seats| - 1], section) + if last.section == section then last.seatOrder else 0
  }

  function HowMany(seats: seq<Seat>, section: string): nat {
    if seats == [] then 0
    else HowMany(seats[..|seats| - 1], section) + if seats[|seats| - 1].section == section then 1 else 0
  }

  /** Where the middle of each section's back row is: the sums the source divides. */
  datatype Middle = Middle(sum: map<string, int>, count: map<string, nat>) {
    function Of(section: string): real {
      if section in sum && section in count && count[section] != 0 then sum[section] as real / count[section] as real else 0.0
    }
  }

  ghost predicate IsMiddleOf(m: Middle, back: seq<Seat>) {
    forall section ::
      && (if section in m.sum then m.sum[section] else 0) == SumOfOrders(back, section)
      && (if section in m.count then m.count[section] else 0) == HowMany(back, section)
  }

  method FindMiddle(back: seq<Seat>) returns (m: Middle)
    ensures IsMiddleOf(m, back)
  {
    var sum: map<string, int>, count: map<string, nat> := map[], map[];
    for k := 0 to |back|
      invariant IsMiddleOf(Middle(sum, count), back[..k])
    {
      assert back[..k + 1][..k] == back[..k];
      var section := back[k].section;
      sum := sum[section := (if section in sum then sum[section] else 0) + back[k].seatOrder];
      count := count[section := (if section in count then count[section] else 0) + 1];
    }
    TakeAll(back);
    return Middle(sum, count);
  }

  function Distance(middle: Middle, seat: Seat): real {
    var d := seat.seatOrder as real - middle.Of(seat.section);
    if d < 0.0 then -d else d
  }

  /** By section, then from the outside in. */
  predicate Ahead(middle: Middle, a: Seat, b: Seat) {
    if a.section != b.section then Less(a.section, b.section) else Distance(middle, a) > Distance(middle, b)
  }

  ghost predicate OutsideIn(middle: Middle, seats: seq<Seat>) {
    forall k | 0 < k < |seats| :: !Ahead(middle, seats[k], seats[k - 1])
  }

  lemma {:induction false} AheadIsOneWay(middle: Middle, a: Seat, b: Seat)
    requires Ahead(middle, a, b)
    ensures !Ahead(middle, b, a)
  {
    if a.section != b.section {
      LessAsymmetric(a.section, b.section);
    }
  }

  /** The same chairs, however arranged. */
  ghost predicate SameChairs(a: seq<Seat>, b: seq<Seat>) { multiset(a) == multiset(b) }

  /** The chairs of a section at one distance from the middle, as listed. */
  function Level(middle: Middle, seats: seq<Seat>, section: string, distance: real): seq<Seat> {
    if seats == [] then []
    else
      var last := seats[|seats| - 1];
      Level(middle, seats[..|seats| - 1], section, distance)
      + if last.section == section && Distance(middle, last) == distance then [last] else []
  }

  /** Chairs that are equally far out stand in `a` as they stand in `b`: the sort is stable. */
  ghost predicate KeepsTurns(middle: Middle, a: seq<Seat>, b: seq<Seat>) {
    forall section, distance :: Level(middle, a, section, distance) == Level(middle, b, section, distance)
  }

  method InsertOutward(middle: Middle, x: Seat, seats: seq<Seat>) returns (r: seq<Seat>)
    requires OutsideIn(middle, seats)
    ensures OutsideIn(middle, r) && SameChairs(r, seats + [x]) && KeepsTurns(middle, r, seats + [x])
    ensures r[|r| - 1] == x || (seats != [] && r[|r| - 1] == seats[|seats| - 1])
    ensures |r| > 0
  {
    if seats == [] || !Ahead(middle, x, seats[|seats| - 1]) {
      return seats + [x];
    }
    var n := |seats| - 1;
    AheadIsOneWay(middle, x, seats[n]);
    var head := InsertOutward(middle, x, seats[..n]);
    SwappedTail(head, seats, x);
    SwappedTurns(middle, head, seats, x);
    r := head + [seats[n]];
  }

  /** A chair that goes ahead of another is not equally far out. */
  lemma {:induction false} SwappedTurns(middle: Middle, head: seq<Seat>, seats: seq<Seat>, x: Seat)
    requires seats != [] && Ahead(middle, x, seats[|seats| - 1])
    requires KeepsTurns(middle, head, seats[..|seats| - 1] + [x])
    ensures KeepsTurns(middle, head + [seats[|seats| - 1]], seats + [x])
  {
    var n := |seats| - 1;
    forall section, distance
      ensures Level(middle, head + [seats[n]], section, distance) == Level(middle, seats + [x], section, distance)
    {
      assert (head + [seats[n]])[..|head|] == head;
      assert (seats[..n] + [x])[..n] == seats[..n];
      assert (seats + [x])[..|seats|] == seats;
      assert Level(middle, head, section, distance) == Level(middle, seats[..n] + [x], section, distance);
      LevelOf(middle, seats, section, distance);
    }
  }

  lemma {:induction false} LevelOf(middle: Middle, seats: seq<Seat>, section: string, distance: real)
    requires seats != []
    ensures var n := |seats| - 1;
            Level(middle, seats, section, distance)
            == Level(middle, seats[..n], section, distance)
               + if seats[n].section == section && Distance(middle, seats[n]) == distance then [seats[n]] else []
  {
  }

  lemma {:induction false} LevelOfSnoc(middle: Middle, a: seq<Seat>, b: seq<Seat>, x: Seat)
    requires KeepsTurns(middle, a, b)
    ensures KeepsTurns(middle, a + [x], b + [x])
  {
    forall section, distance
      ensures Level(middle, a + [x], section, distance) == Level(middle, b + [x], section, distance)
    {
      assert (a + [x])[..|a|] == a && (b + [x])[..|b|] == b;
      assert Level(middle, a, section, distance) == Level(middle, b, section, distance);
    }
  }

  lemma {:induction false} SwappedTail(head: seq<Seat>, seats: seq<Seat>, x: Seat)
    requires seats != [] && SameChairs(head, seats[..|seats| - 1] + [x])
    ensures SameChairs(head + [seats[|seats| - 1]], seats + [x])
  {
    assert seats == seats[..|seats| - 1] + [seats[|seats| - 1]];
  }

  /** Each section's last row, ordered outward from its middle. */
  method BackRowSeats(seats: seq<Seat>) returns (back: seq<Seat>, ghost middle: Middle)
    ensures SameChairs(back, BackOf(seats, seats))
    ensures IsMiddleOf(middle, BackOf(seats, seats)) && OutsideIn(middle, back)
    ensures KeepsTurns(middle, back, BackOf(seats, seats))
  {
    var lastRow := LastRows(seats);
    var listed: seq<Seat> := [];
    for k := 0 to |seats|
      invariant listed == BackOf(seats[..k], seats)
    {
      assert seats[..k + 1][..k] == seats[..k];
      var section := seats[k].section;
      if seats[k].rowOrder == (if section in lastRow then lastRow[section] else 0) {
        listed := listed + [seats[k]];
      }
    }
    TakeAll(seats);
    var m := FindMiddle(listed);
    middle := m;
    back := [];
    for k := 0 to |listed|
      invariant OutsideIn(m, back) && SameChairs(back, listed[..k]) && KeepsTurns(m, back, listed[..k])
    {
      TakeNext(listed, k);
      LevelOfSnoc(m, back, listed[..k], listed[k]);
      back := InsertOutward(m, listed[k], back);
    }
    TakeAll(listed);
  }

  // -------------------------------------------------------------- suggestions

  /** The chairs nobody has marked yet. */
  function Unmarked(seats: seq<Seat>): seq<Seat> {
    if seats == [] then []
    else Unmarked(seats[..|seats| - 1]) + if seats[|seats| - 1].kind.Standard? then [seats[|seats| - 1]] else []
  }

  function Repeated(kind: SeatKind, n: int): seq<SeatKind> {
    if n <= 0 then [] else Repeated(kind, n - 1) + [kind]
  }

  /** Wheelchair spaces and companions in turn, as long as each is wanted. */
  function Pairs(wheelchairs: int, companions: int, n: int): seq<SeatKind> {
    if n <= 0 then []
    else
      Pairs(wheelchairs, companions, n - 1)
      + (if n <= wheelchairs then [Wheelchair] else []) + (if n <= companions then [Companion] else [])
  }

  datatype Needs = Needs(wheelchair: int, companion: int, reduced: int, obese: int)

  /** What is owed over what is there; an obese seat will count for both quotas. */
  function NeedsOf(report: Compliance): Needs {
    var obese := report.requiredObese - report.haveObese;
    Needs(report.requiredWheelchair - report.haveWheelchair,
          report.requiredWheelchair - report.haveCompanion,
          report.requiredReduced - report.haveReduced - (if obese > 0 then obese else 0),
          obese)
  }

  function Largest(a: int, b: int): int { if b > a then b else a }

  /** The kinds to hand out, in order. */
  function Wanted(n: Needs): seq<SeatKind> {
    Pairs(n.wheelchair, n.companion, Largest(n.wheelchair, n.companion)) + Repeated(Obese, n.obese) + Repeated(ReducedMobility, n.reduced)
  }

  function Fewest(a: int, b: int): int { if a <= b then a else b }

  /** The first `n` unmarked chairs are given the first `n` kinds. */
  function Handed(chairs: seq<Seat>, kinds: seq<SeatKind>, n: nat): map<string, SeatKind>
    requires n <= |chairs| && n <= |kinds|
  {
    if n == 0 then map[] else Handed(chairs, kinds, n - 1)[KeyOf(chairs[n - 1]) := kinds[n - 1]]
  }

  function Suggested(back: seq<Seat>, kinds: seq<SeatKind>): map<string, SeatKind> {
    var chairs := Unmarked(back);
    Handed(chairs, kinds, Fewest(|chairs|, |kinds|))
  }

  /** How far the shared cursor is once some kinds were asked for. */
  ghost predicate Cursor(back: seq<Seat>, taken: nat, kinds: seq<SeatKind>) {
    && taken <= |back|
    && |Unmarked(back[..taken])| == Fewest(|Unmarked(back)|, |kinds|)
    && (|Unmarked(back[..taken])| < |kinds| ==> taken == |back|)
  }

  lemma {:induction false} UnmarkedPrefix(back: seq<Seat>, n: nat)
    requires n <= |back|
    ensures Unmarked(back[..n]) <= Unmarked(back)
  {
    if n < |back| {
      UnmarkedPrefix(back[..|back| - 1], n);
      assert back[..|back| - 1][..n] == back[..n];
    } else {
      TakeAll(back);
    }
  }

  lemma {:induction false} HandedPrefix(chairs: seq<Seat>, kinds: seq<SeatKind>, more: SeatKind, n: nat)
    requires n <= |chairs| && n <= |kinds|
    ensures Handed(chairs, kinds + [more], n) == Handed(chairs, kinds, n)
  {
    if n > 0 {
      HandedPrefix(chairs, kinds, more, n - 1);
    }
  }

  /** One more kind is asked for: the cursor moves to the next unmarked chair, or to the end. */
  method Claim(back: seq<Seat>, ghost kinds: seq<SeatKind>, taken: nat, suggestion: map<string, SeatKind>, kind: SeatKind)
    returns (taken': nat, suggestion': map<string, SeatKind>)
    requires Cursor(back, taken, kinds) && suggestion == Suggested(back, kinds)
    ensures Cursor(back, taken', kinds + [kind]) && suggestion' == Suggested(back, kinds + [kind])
  {
    taken', suggestion' := taken, suggestion;
    var chairs := Unmarked(back);
    ghost var n := |Unmarked(back[..taken])|;
    HandedPrefix(chairs, kinds, kind, n);
    while taken' < |back|
      invariant taken <= taken' <= |back| && |Unmarked(back[..taken'])| == n && suggestion' == suggestion
      decreases |back| - taken'
    {
      var seat := back[taken'];
      UnmarkedPrefix(back, taken' + 1);
      assert back[..taken' + 1][..taken'] == back[..taken'];
      taken' := taken' + 1;
      if !seat.kind.Standard? {
        continue;
      }
      assert chairs[n] == seat;
      suggestion' := suggestion'[KeyOf(seat) := kind];
      return;
    }
    TakeAll(back);
  }

  method ClaimMany(back: seq<Seat>, ghost kinds: seq<SeatKind>, taken: nat, suggestion: map<string, SeatKind>, kind: SeatKind, count: int)
    returns (taken': nat, suggestion': map<string, SeatKind>)
    requires Cursor(back, taken, kinds) && suggestion == Suggested(back, kinds)
    ensures Cursor(back, taken', kinds + Repeated(kind, count))
    ensures suggestion' == Suggested(back, kinds + Repeated(kind, count))
  {
    taken', suggestion' := taken, suggestion;
    var left := count;
    assert kinds + [] == kinds;
    while left > 0
      invariant count <= 0 ==> left == count
      invariant count > 0 ==> 0 <= left <= count
      invariant var asked := kinds + Repeated(kind, if count > 0 then count - left else 0);
                Cursor(back, taken', asked) && suggestion' == Suggested(back, asked)
    {
      ghost var asked := kinds + Repeated(kind, count - left);
      taken', suggestion' := Claim(back, asked, taken', suggestion', kind);
      assert asked + [kind] == kinds + Repeated(kind, count - left + 1);
      left := left - 1;
    }
  }

  /** The chairs of the back rows, each row from the outside in, equally far ones as listed. */
  ghost predicate Arranged(seats: seq<Seat>, back: seq<Seat>) {
    exists middle ::
      IsMiddleOf(middle, BackOf(seats, seats)) && OutsideIn(middle, back) && KeepsTurns(middle, back, BackOf(seats, seats))
  }

  /** `m` hands out what the report misses over the back rows' chairs, and does so from the outside in. */
  ghost predicate HandsOut(seats: seq<Seat>, report: Compliance, back: seq<Seat>, m: map<string, SeatKind>) {
    && SameChairs(back, BackOf(seats, seats))
    && m == Suggested(back, Wanted(NeedsOf(report)))
    && (m != map[] ==> Arranged(seats, back))
  }

  /** Marks back-row chairs for whatever the report says is missing. */
  method SuggestAccessibleSeats(seats: seq<Seat>, report: Compliance) returns (suggestion: map<string, SeatKind>)
    ensures exists back :: HandsOut(seats, report, back, suggestion)
  {
    var needs := NeedsOf(report);
    NothingWanted(needs);
    if |seats| == 0 || (needs.wheelchair <= 0 && needs.companion <= 0 && needs.reduced <= 0 && needs.obese <= 0) {
      assert HandsOut(seats, report, BackOf(seats, seats), map[]);
      return map[];
    }
    var back, middle := BackRowSeats(seats);
    if |back| == 0 {
      assert HandsOut(seats, report, back, map[]);
      return map[];
    }
    var taken;
    taken, suggestion := ClaimPairs(back, needs);
    ghost var pairs := Pairs(needs.wheelchair, needs.companion, Largest(needs.wheelchair, needs.companion));
    taken, suggestion := ClaimMany(back, pairs, taken, suggestion, Obese, needs.obese);
    taken, suggestion := ClaimMany(back, pairs + Repeated(Obese, needs.obese), taken, suggestion, ReducedMobility, needs.reduced);
    assert HandsOut(seats, report, back, suggestion);
  }

  /** Spaces and companions in turn. */
  method ClaimPairs(back: seq<Seat>, needs: Needs) returns (taken: nat, suggestion: map<string, SeatKind>)
    ensures var asked := Pairs(needs.wheelchair, needs.companion, Largest(needs.wheelchair, needs.companion));
            Cursor(back, taken, asked) && suggestion == Suggested(back, asked)
  {
    taken, suggestion := 0, map[];
    var pairs := Largest(needs.wheelchair, needs.companion);
    ghost var asked: seq<SeatKind> := [];
    var index := 0;
    assert back[..0] == [];
    while index < pairs
      invariant 0 <= index && (pairs > 0 ==> index <= pairs) && (pairs <= 0 ==> index == 0)
      invariant asked == Pairs(needs.wheelchair, needs.companion, index)
      invariant Cursor(back, taken, asked) && suggestion == Suggested(back, asked)
    {
      PairsNext(needs.wheelchair, needs.companion, index + 1);
      if index < needs.wheelchair {
        taken, suggestion := Claim(back, asked, taken, suggestion, Wheelchair);
        asked := asked + [Wheelchair];
      }
      if index < needs.companion {
        taken, suggestion := Claim(back, asked, taken, suggestion, Companion);
        asked := asked + [Companion];
      }
      index := index + 1;
    }
  }

  lemma {:induction false} NothingWanted(n: Needs)
    ensures n.wheelchair <= 0 && n.companion <= 0 && n.reduced <= 0 && n.obese <= 0 ==> Wanted(n) == []
  {
  }

  lemma {:induction false} PairsNext(w: int, c: int, n: int)
    requires n > 0
    ensures Pairs(w, c, n)
            == if n <= w then (if n <= c then Pairs(w, c, n - 1) + [Wheelchair] + [Companion] else Pairs(w, c, n - 1) + [Wheelchair])
               else (if n <= c then Pairs(w, c, n - 1) + [Companion] else Pairs(w, c, n - 1))
  {
  }
}
