/**
 What a room owes and which chairs it is suggested, said of the chairs themselves.
 (domain/seating/generator.go, domain/seating/accessibility.go)
 */
module AccessibleSeats {
  import opened Results
  import opened Text
  import opened SeatRows
  import opened Accessibility
  import opened AccessibilityTheorems

  // ------------------------------------------------------------------- report

  ghost function OfKind(seats: seq<Seat>, kind: SeatKind): set<int> {
    set k | 0 <= k < |seats| && seats[k].kind == kind
  }

  lemma {:induction false} OfKindNext(seats: seq<Seat>, kind: SeatKind)
    requires seats != []
    ensures var n := |seats| - 1;
            && OfKind(seats, kind) == (if seats[n].kind == kind then OfKind(seats[..n], kind) + {n} else OfKind(seats[..n], kind))
            && n !in OfKind(seats[..n], kind)
  {
  }

  lemma {:induction false} CountIs(seats: seq<Seat>, kind: SeatKind)
    ensures Count(seats, kind) == |OfKind(seats, kind)|
  {
    if seats == [] {
      assert OfKind(seats, kind) == {};
    } else {
      CountIs(seats[..|seats| - 1], kind);
      OfKindNext(seats, kind);
    }
  }

  /**
   A room owes its quota of spaces and of reduced-mobility chairs, a companion to every space, and half the
   quota, rounded down but never nothing, of obese chairs, which count for both.
   */
  lemma {:induction false} ReportIs(seats: seq<Seat>, standing: int)
    ensures var r := Measured(seats, standing);
            && r.capacity == |seats| + standing
            && r.requiredWheelchair == r.requiredReduced == Quota(r.capacity)
            && (r.capacity > 0 ==> r.requiredObese >= 1)
            && (r.requiredReduced >= 2 ==> 2 * r.requiredObese <= r.requiredReduced < 2 * r.requiredObese + 2)
            && (r.requiredReduced <= 1 ==> r.requiredObese == r.requiredReduced)
            && r.haveWheelchair == |OfKind(seats, Wheelchair)|
            && r.haveCompanion == |OfKind(seats, Companion)|
            && r.haveObese == |OfKind(seats, Obese)|
            && r.haveReduced == r.haveObese + |OfKind(seats, ReducedMobility)|
            && (r.Compliant() <==>
                  && r.haveWheelchair >= r.requiredWheelchair && r.haveCompanion >= r.requiredWheelchair
                  && r.haveReduced >= r.requiredReduced && r.haveObese >= r.requiredObese)
  {
    CountIs(seats, Wheelchair);
    CountIs(seats, Companion);
    CountIs(seats, Obese);
    CountIs(seats, ReducedMobility);
  }

  // ---------------------------------------------------------------- back rows

  /** The last row of a section has a chair in it, unless it is the first row. */
  lemma {:induction false} LastRowHasAChair(seats: seq<Seat>, section: string) returns (k: nat)
    requires LastRow(seats, section) > 0
    ensures k < |seats| && seats[k].section == section && seats[k].rowOrder == LastRow(seats, section)
  {
    k := |seats| - 1;
    if !(seats[k].section == section && seats[k].rowOrder > LastRow(seats[..k], section)) {
      k := LastRowHasAChair(seats[..k], section);
    }
  }

  /** A chair is in a back row when no chair of its section is further back. */
  predicate IsAtTheBack(seats: seq<Seat>, seat: Seat) {
    seat in seats && forall k | 0 <= k < |seats| && seats[k].section == seat.section :: seats[k].rowOrder <= seat.rowOrder
  }

  lemma {:induction false} BackKeeps(seats: seq<Seat>, all: seq<Seat>, seat: Seat)
    ensures seat in BackOf(seats, all) <==> seat in seats && seat.rowOrder == LastRow(all, seat.section)
  {
    if seats != [] {
      var n := |seats| - 1;
      BackKeeps(seats[..n], all, seat);
      assert seats == seats[..n] + [seats[n]];
    }
  }

  lemma {:induction false} BackIs(seats: seq<Seat>, seat: Seat)
    ensures seat in BackOf(seats, seats) <==> IsAtTheBack(seats, seat)
  {
    BackKeeps(seats, seats, seat);
    if seat in seats {
      var j :| 0 <= j < |seats| && seats[j] == seat;
      LastRowIsLast(seats, j);
      forall k | 0 <= k < |seats| && seats[k].section == seat.section
        ensures seats[k].rowOrder <= LastRow(seats, seat.section)
      {
        LastRowIsLast(seats, k);
      }
      if LastRow(seats, seat.section) > 0 {
        var k := LastRowHasAChair(seats, seat.section);
      }
    }
  }

  // --------------------------------------------------------------- outside in

  function Abs(x: int): int { if x < 0 then -x else x }

  /** How far a chair is from the middle of its section's back row, times the chairs of that row. */
  function Outward(back: seq<Seat>, seat: Seat): int {
    Abs(HowMany(back, seat.section) * seat.seatOrder - SumOfOrders(back, seat.section))
  }

  lemma {:induction false} OfIs(m: Middle, back: seq<Seat>, section: string)
    requires IsMiddleOf(m, back) && HowMany(back, section) > 0
    ensures m.Of(section) == SumOfOrders(back, section) as real / HowMany(back, section) as real
  {
  }

  lemma {:induction false} Scaled(order: int, mean: real, n: nat, sum: int, distance: real, times: int)
    requires n > 0 && mean * n as real == sum as real
    requires distance == AbsReal(order as real - mean) && times == Abs(n * order - sum)
    ensures distance * n as real == times as real
  {
    var d, x := order as real - mean, n * order - sum;
    assert d * n as real == order as real * n as real - mean * n as real;
    assert order as real * n as real == (n * order) as real;
    SignOfProduct(d, n as real, x);
  }

  lemma {:induction false} SignOfProduct(d: real, n: real, x: int)
    requires n > 0.0 && d * n == x as real
    ensures d < 0.0 <==> x < 0
    ensures (-d) * n == -x as real
  {
  }

  lemma {:induction false} NoNearer(a: real, b: real, n: real, x: int, y: int)
    requires n > 0.0 && a >= b && a * n == x as real && b * n == y as real
    ensures x >= y
  {
    assert (a - b) * n >= 0.0;
  }

  /** Divided distances compare as undivided ones. */
  lemma {:induction false} NoNearerThan(mean: real, n: nat, sum: int, x: int, y: int)
    requires n > 0 && mean == sum as real / n as real && AbsReal(x as real - mean) >= AbsReal(y as real - mean)
    ensures Abs(n * x - sum) >= Abs(n * y - sum)
  {
    assert mean * n as real == sum as real;
    NoNearerTimes(mean, n, sum, x, y, AbsReal(x as real - mean), AbsReal(y as real - mean), Abs(n * x - sum), Abs(n * y - sum));
  }

  lemma {:induction false} NoNearerTimes(mean: real, n: nat, sum: int, x: int, y: int, da: real, db: real, far: int, near: int)
    requires n > 0 && mean * n as real == sum as real && da >= db
    requires da == AbsReal(x as real - mean) && far == Abs(n * x - sum)
    requires db == AbsReal(y as real - mean) && near == Abs(n * y - sum)
    ensures far >= near
  {
    assert far >= near by {
      assert da * n as real == far as real by {
        Scaled(x, mean, n, sum, da, far);
      }
      NearerToo(y, mean, n, sum, db, near, da, far);
    }
  }

  lemma {:induction false} NearerToo(y: int, mean: real, n: nat, sum: int, db: real, near: int, da: real, far: int)
    requires n > 0 && mean * n as real == sum as real && da >= db && da * n as real == far as real
    requires db == AbsReal(y as real - mean) && near == Abs(n * y - sum)
    ensures far >= near
  {
    Scaled(y, mean, n, sum, db, near);
    NoNearer(da, db, n as real, far, near);
  }

  function AbsReal(x: real): real { if x < 0.0 then -x else x }

  /** Of two chairs that stand in order, the first is of an earlier section, or of the same and no nearer the middle. */
  lemma {:induction false} InOrder(m: Middle, listed: seq<Seat>, a: Seat, b: Seat)
    requires IsMiddleOf(m, listed) && HowMany(listed, a.section) > 0 && !Ahead(m, b, a)
    ensures Less(a.section, b.section) || (a.section == b.section && Outward(listed, a) >= Outward(listed, b))
  {
    if a.section == b.section {
      OfIs(m, listed, a.section);
      NoNearerThan(m.Of(a.section), HowMany(listed, a.section), SumOfOrders(listed, a.section), a.seatOrder, b.seatOrder);
    } else {
      LessTotal(a.section, b.section);
    }
  }

  lemma {:induction false} ListedIsSome(seats: seq<Seat>, seat: Seat)
    requires seat in seats
    ensures HowMany(seats, seat.section) > 0
  {
    var n := |seats| - 1;
    if seats[n] != seat {
      assert seats == seats[..n] + [seats[n]];
      ListedIsSome(seats[..n], seat);
    }
  }

  /** The arrangement a suggestion is handed out over: the back rows' chairs, by section, and in each from the ends inwards. */
  lemma {:induction false} ArrangedIs(seats: seq<Seat>, back: seq<Seat>, k: nat)
    requires Arranged(seats, back) && SameChairs(back, BackOf(seats, seats)) && 0 < k < |back|
    ensures Less(back[k - 1].section, back[k].section)
            || (back[k - 1].section == back[k].section
                && Outward(BackOf(seats, seats), back[k - 1]) >= Outward(BackOf(seats, seats), back[k]))
  {
    var listed := BackOf(seats, seats);
    var m :| IsMiddleOf(m, listed) && OutsideIn(m, back) && KeepsTurns(m, back, listed);
    assert back[k - 1] in multiset(back);
    ListedIsSome(listed, back[k - 1]);
    InOrder(m, listed, back[k - 1], back[k]);
  }

  // --------------------------------------------------------------- who gets what

  /** Spaces and companions in turn while both are wanted, then the rest of either, then obese, then reduced mobility. */
  function KindInTurn(w: nat, c: nat, o: nat, k: nat): SeatKind {
    var both := if w <= c then w else c;
    if k < 2 * both then if k % 2 == 0 then Wheelchair else Companion
    else if k < w + c then if w > c then Wheelchair else Companion
    else if k < w + c + o then Obese
    else ReducedMobility
  }

  lemma {:induction false} PairsAre(w: nat, c: nat, n: nat, k: nat)
    requires n <= Largest(w, c) && k < |Pairs(w, c, n)|
    ensures |Pairs(w, c, n)| == Fewest(w, n) + Fewest(c, n)
    ensures Pairs(w, c, n)[k] == KindInTurn(w, c, 0, k)
  {
    PairsCount(w, c, n);
    PairsCount(w, c, n - 1);
    if k < |Pairs(w, c, n - 1)| {
      PairsAre(w, c, n - 1, k);
    } else {
      PairsNext(w, c, n);
    }
  }

  lemma {:induction false} PairsCount(w: nat, c: nat, n: int)
    ensures |Pairs(w, c, n)| == if n <= 0 then 0 else Fewest(w, n) + Fewest(c, n)
  {
    if n > 0 {
      PairsCount(w, c, n - 1);
    }
  }

  lemma {:induction false} RepeatedAre(kind: SeatKind, n: int)
    ensures |Repeated(kind, n)| == Positive(n) && forall k | 0 <= k < |Repeated(kind, n)| :: Repeated(kind, n)[k] == kind
  {
    if n > 0 {
      RepeatedAre(kind, n - 1);
    }
  }

  /** Nothing more is wanted of a kind there is already too much of. */
  lemma {:induction false} PairsOfPositive(w: int, c: int, n: int)
    ensures Pairs(w, c, n) == Pairs(Positive(w), Positive(c), n)
  {
    if n > 0 {
      PairsOfPositive(w, c, n - 1);
    }
  }

  lemma {:induction false} PairsOfNothing(w: int, c: int)
    ensures Pairs(w, c, Largest(w, c)) == Pairs(Positive(w), Positive(c), Largest(Positive(w), Positive(c)))
  {
    PairsOfPositive(w, c, Largest(w, c));
    if Largest(w, c) <= 0 {
      assert Pairs(0, 0, 0) == [];
    }
  }

  /** The order in which what is missing is handed out. */
  lemma {:induction false} HandedInTurn(n: Needs, k: nat)
    requires k < |Wanted(n)|
    ensures |Wanted(n)| == Positive(n.wheelchair) + Positive(n.companion) + Positive(n.obese) + Positive(n.reduced)
    ensures Wanted(n)[k] == KindInTurn(Positive(n.wheelchair), Positive(n.companion), Positive(n.obese), k)
  {
    var w, c := Positive(n.wheelchair), Positive(n.companion);
    PairsOfNothing(n.wheelchair, n.companion);
    PairsCount(w, c, Largest(w, c));
    RepeatedAre(Obese, n.obese);
    RepeatedAre(ReducedMobility, n.reduced);
    if k < |Pairs(w, c, Largest(w, c))| {
      PairsAre(w, c, Largest(w, c), k);
    }
  }

  /** Where an unmarked chair stands, and that they stand there in the order of the row. */
  lemma {:induction false} UnmarkedPlace(back: seq<Seat>, k: nat) returns (j: nat)
    requires k < |Unmarked(back)|
    ensures j < |back| && back[j] == Unmarked(back)[k] && back[j].kind.Standard? && |Unmarked(back[..j])| == k
  {
    var n := |back| - 1;
    if k < |Unmarked(back[..n])| {
      j := UnmarkedPlace(back[..n], k);
      assert back[..n][..j] == back[..j];
    } else {
      j := n;
    }
  }

  /** Each plain chair, in the order they are come to, is marked with the kind whose turn it is. */
  lemma {:induction false} HandedIs(seats: seq<Seat>, chairs: seq<Seat>, kinds: seq<SeatKind>, n: nat, k: nat)
    requires UniqueKeys(seats) && Givable(seats, chairs) && k < n <= |chairs| && n <= |kinds|
    ensures KeyOf(chairs[k]) in Handed(chairs, kinds, n) && Handed(chairs, kinds, n)[KeyOf(chairs[k])] == kinds[k]
  {
    if k < n - 1 {
      HandedIs(seats, chairs, kinds, n - 1, k);
      KeysAreTakenOnce(seats, chairs, k, n - 1);
    }
  }

  /** The `k`-th plain chair of the back rows, from the outside in, is marked with the `k`-th kind missing. */
  lemma {:induction false} EachChairInTurn(seats: seq<Seat>, report: Compliance, back: seq<Seat>, m: map<string, SeatKind>, k: nat)
    requires UniqueKeys(seats) && HandsOut(seats, report, back, m)
    requires k < |Unmarked(back)| && k < |Wanted(NeedsOf(report))|
    ensures var needs := NeedsOf(report);
            && KeyOf(Unmarked(back)[k]) in m
            && m[KeyOf(Unmarked(back)[k])]
               == KindInTurn(Positive(needs.wheelchair), Positive(needs.companion), Positive(needs.obese), k)
  {
    var chairs, kinds := Unmarked(back), Wanted(NeedsOf(report));
    UnmarkedAreGivable(seats, back);
    HandedIs(seats, chairs, kinds, Fewest(|chairs|, |kinds|), k);
    HandedInTurn(NeedsOf(report), k);
  }

  // ------------------------------------------------------------ shared labels

  /** No two of the first `n` chairs have one row and seat label. */
  ghost predicate KeysDiffer(chairs: seq<Seat>, n: nat)
    requires n <= |chairs|
  {
    forall i, j | 0 <= i < j < n :: KeyOf(chairs[i]) != KeyOf(chairs[j])
  }

  lemma {:induction false} NextDiffers(chairs: seq<Seat>, n: nat)
    requires 0 < n <= |chairs|
    ensures KeysDiffer(chairs, n)
       <==> KeysDiffer(chairs, n - 1) && forall k | 0 <= k < n - 1 :: KeyOf(chairs[k]) != KeyOf(chairs[n - 1])
  {
  }

  lemma {:induction false} OneMoreKey(m: map<string, SeatKind>, key: string, kind: SeatKind)
    ensures |m[key := kind]| == |m| + if key in m then 0 else 1
  {
    assert m[key := kind].Keys == m.Keys + {key};
  }

  lemma {:induction false} HandedCounts(chairs: seq<Seat>, kinds: seq<SeatKind>, n: nat)
    requires n <= |chairs| && n <= |kinds|
    ensures |Handed(chairs, kinds, n)| <= n
    ensures |Handed(chairs, kinds, n)| == n <==> KeysDiffer(chairs, n)
  {
    if n > 0 {
      var before, key := Handed(chairs, kinds, n - 1), KeyOf(chairs[n - 1]);
      HandedCounts(chairs, kinds, n - 1);
      HandedKeys(chairs, kinds, n - 1, key);
      NextDiffers(chairs, n);
      OneMoreKey(before, key, kinds[n - 1]);
    }
  }

  /**
   A suggestion is keyed by labels, and a label says nothing of the section. It keeps every kind it handed
   out exactly when no two of the chairs it came to share their labels; a shared one is overwritten.
   */
  lemma {:induction false} NothingIsOverwrittenExactlyWhenLabelsDiffer(
      seats: seq<Seat>, report: Compliance, back: seq<Seat>, m: map<string, SeatKind>)
    requires HandsOut(seats, report, back, m)
    ensures var n := Fewest(|Unmarked(back)|, |Wanted(NeedsOf(report))|);
            |m| <= n && (|m| == n <==> KeysDiffer(Unmarked(back), n))
  {
    HandedCounts(Unmarked(back), Wanted(NeedsOf(report)), Fewest(|Unmarked(back)|, |Wanted(NeedsOf(report))|));
  }

  function Chair(section: string, order: nat): Seat { Seat(section, "A", Itoa(order), 0, order, Standard) }

  /** Two sections of one row of two chairs, lettered from A as sections are unless asked otherwise. */
  const TWO_SECTIONS := [Chair("1", 1), Chair("1", 2), Chair("2", 1), Chair("2", 2)]

  lemma {:induction false} TwoSectionsAreBack()
    ensures BackOf(TWO_SECTIONS, TWO_SECTIONS) == TWO_SECTIONS && Unmarked(TWO_SECTIONS) == TWO_SECTIONS
  {
    var s := TWO_SECTIONS;
    forall section
      ensures LastRow(s, section) == 0
    {
      if LastRow(s, section) > 0 {
        var k := LastRowHasAChair(s, section);
      }
    }
    AllAreBack(s, s, 4);
    assert s[..4] == s;
  }

  lemma {:induction false} AllAreBack(s: seq<Seat>, all: seq<Seat>, n: nat)
    requires n <= |s| && forall k | 0 <= k < |s| :: s[k].kind.Standard? && s[k].rowOrder == LastRow(all, s[k].section)
    ensures BackOf(s[..n], all) == s[..n] && Unmarked(s[..n]) == s[..n]
  {
    if n > 0 {
      AllAreBack(s, all, n - 1);
      assert s[..n][..n - 1] == s[..n - 1];
    }
  }

  lemma {:induction false} NoneOfAKind(s: seq<Seat>, kind: SeatKind)
    requires forall k | 0 <= k < |s| :: s[k].kind != kind
    ensures Count(s, kind) == 0
  {
    if s != [] {
      NoneOfAKind(s[..|s| - 1], kind);
    }
  }

  lemma {:induction false} TwoSectionsHave()
    ensures Measured(TWO_SECTIONS, 0) == Compliance(4, 1, 1, 1, 0, 0, 0, 0)
  {
    NoneOfAKind(TWO_SECTIONS, Wheelchair);
    NoneOfAKind(TWO_SECTIONS, Companion);
    NoneOfAKind(TWO_SECTIONS, Obese);
    NoneOfAKind(TWO_SECTIONS, ReducedMobility);
    assert Quota(4) == 1;
  }

  lemma {:induction false} OneOfEach()
    ensures Wanted(Needs(1, 1, 0, 1)) == [Wheelchair, Companion, Obese]
  {
    assert Pairs(1, 1, 0) == [] && Pairs(1, 1, 1) == [Wheelchair, Companion];
    assert Repeated(Obese, 0) == [] && Repeated(Obese, 1) == [Obese] && Repeated(ReducedMobility, 0) == [];
  }

  lemma {:induction false} TwoSectionsMiss()
    ensures Wanted(NeedsOf(Measured(TWO_SECTIONS, 0))) == [Wheelchair, Companion, Obese]
  {
    TwoSectionsHave();
    OneOfEach();
  }

  const TWO_MARKS := map["A/1" := Obese, "A/2" := Companion]

  lemma {:induction false} TwoSectionsHandOut()
    ensures HandsOut(TWO_SECTIONS, Measured(TWO_SECTIONS, 0), TWO_SECTIONS, TWO_MARKS)
  {
    TwoSectionsAreBack();
    TwoSectionsMiss();
    TwoSectionsAreArranged();
    TwoSectionsAreHanded();
  }

  lemma {:induction false} TwoSectionsHaveEnough()
    ensures Count(BackOf(TWO_SECTIONS, TWO_SECTIONS), Standard) == 4
  {
    TwoSectionsAreBack();
    UnmarkedCounts(TWO_SECTIONS);
  }

  lemma {:induction false} TwoSectionsStayShort()
    ensures !Measured(Marked(TWO_SECTIONS, TWO_MARKS), 0).Compliant()
  {
    NoneOfAKind(Marked(TWO_SECTIONS, TWO_MARKS), Wheelchair);
    assert Quota(4) == 1;
  }

  /**
   So a room of two sections lettered alike, with four plain chairs at the back for three kinds missing, is
   suggested two marks, neither of them a wheelchair space, and marking them does not make it compliant.
   */
  lemma {:induction false} SectionsLetteredAlike()
    ensures Count(BackOf(TWO_SECTIONS, TWO_SECTIONS), Standard) >= |Wanted(NeedsOf(Measured(TWO_SECTIONS, 0)))|
    ensures HandsOut(TWO_SECTIONS, Measured(TWO_SECTIONS, 0), TWO_SECTIONS, map["A/1" := Obese, "A/2" := Companion])
    ensures !Measured(Marked(TWO_SECTIONS, map["A/1" := Obese, "A/2" := Companion]), 0).Compliant()
  {
    TwoSectionsMiss();
    TwoSectionsHaveEnough();
    TwoSectionsHandOut();
    TwoSectionsStayShort();
  }

  lemma {:induction false} TwoSectionsAreHanded()
    ensures Handed(TWO_SECTIONS, [Wheelchair, Companion, Obese], 3) == map["A/1" := Obese, "A/2" := Companion]
  {
    var s, kinds := TWO_SECTIONS, [Wheelchair, Companion, Obese];
    assert KeyOf(s[0]) == "A/1" && KeyOf(s[1]) == "A/2" && KeyOf(s[2]) == "A/1";
    assert Handed(s, kinds, 1) == map["A/1" := Wheelchair];
    assert Handed(s, kinds, 2) == map["A/1" := Wheelchair, "A/2" := Companion];
  }

  lemma {:induction false} TwoSectionsAreArranged()
    ensures Arranged(TWO_SECTIONS, TWO_SECTIONS)
  {
    var s := TWO_SECTIONS;
    var m := Middle(map["1" := 3, "2" := 3], map["1" := 2, "2" := 2]);
    TwoSectionsAreBack();
    forall section
      ensures SumOfOrders(s, section) == (if section == "1" || section == "2" then 3 else 0)
      ensures HowMany(s, section) == (if section == "1" || section == "2" then 2 else 0)
    {
      SumsOfFour(s, section);
    }
    assert IsMiddleOf(m, s);
    assert m.Of("1") == 1.5 && m.Of("2") == 1.5;
    assert OutsideIn(m, s);
  }

  lemma {:induction false} SumsOfFour(s: seq<Seat>, section: string)
    requires |s| == 4
    ensures SumOfOrders(s, section) == OrderIn(s[0], section) + OrderIn(s[1], section) + OrderIn(s[2], section) + OrderIn(s[3], section)
    ensures HowMany(s, section)
            == (if s[0].section == section then 1 else 0) + (if s[1].section == section then 1 else 0)
               + (if s[2].section == section then 1 else 0) + (if s[3].section == section then 1 else 0)
  {
    assert s[..3][..2] == s[..2] && s[..2][..1] == s[..1] && s[..1][..0] == [];
    assert SumOfOrders(s[..1], section) == OrderIn(s[0], section);
    assert SumOfOrders(s[..2], section) == SumOfOrders(s[..1], section) + OrderIn(s[1], section);
    assert SumOfOrders(s[..3], section) == SumOfOrders(s[..2], section) + OrderIn(s[2], section);
    assert HowMany(s[..1], section) == if s[0].section == section then 1 else 0;
    assert HowMany(s[..2], section) == HowMany(s[..1], section) + if s[1].section == section then 1 else 0;
    assert HowMany(s[..3], section) == HowMany(s[..2], section) + if s[2].section == section then 1 else 0;
  }

  function OrderIn(seat: Seat, section: string): int { if seat.section == section then seat.seatOrder else 0 }
}
