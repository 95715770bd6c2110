/** What marking the suggested chairs does to a room's quotas. */
module AccessibilityTheorems {
  import opened Results
  import opened SeatRows
  import opened Accessibility

  /** The room with the suggestion merged in. */
  function Marked(seats: seq<Seat>, m: map<string, SeatKind>): (r: seq<Seat>)
    ensures |r| == |seats|
    ensures forall k | 0 <= k < |r| ::
              r[k] == if KeyOf(seats[k]) in m then seats[k].(kind := m[KeyOf(seats[k])]) else seats[k]
  {
    seq(|seats|, k requires 0 <= k < |seats| =>
      if KeyOf(seats[k]) in m then seats[k].(kind := m[KeyOf(seats[k])]) else seats[k])
  }

  ghost predicate UniqueKeys(seats: seq<Seat>) {
    forall j, k | 0 <= j < k < |seats| :: KeyOf(seats[j]) != KeyOf(seats[k])
  }

  function CountKind(kinds: seq<SeatKind>, kind: SeatKind): nat {
    if kinds == [] then 0 else CountKind(kinds[..|kinds| - 1], kind) + if kinds[|kinds| - 1] == kind then 1 else 0
  }

  // ------------------------------------------------------------ marking chairs

  lemma {:induction false} MarkedPrefix(seats: seq<Seat>, m: map<string, SeatKind>, n: nat)
    requires n <= |seats|
    ensures Marked(seats, m)[..n] == Marked(seats[..n], m)
  {
  }

  /** A key no chair has marks none. */
  lemma {:induction false} ForeignKey(seats: seq<Seat>, m: map<string, SeatKind>, key: string, given: SeatKind)
    requires forall k | 0 <= k < |seats| :: KeyOf(seats[k]) != key
    ensures Marked(seats, m[key := given]) == Marked(seats, m)
  {
  }

  lemma {:induction false} CountMarked(seats: seq<Seat>, m: map<string, SeatKind>, kind: SeatKind)
    requires seats != []
    ensures var n := |seats| - 1;
            Count(Marked(seats, m), kind) == Count(Marked(seats[..n], m), kind) + if Marked(seats, m)[n].kind == kind then 1 else 0
  {
    MarkedPrefix(seats, m, |seats| - 1);
  }

  /** The kind a chair ends up with. */
  lemma {:induction false} MarkedAt(seats: seq<Seat>, m: map<string, SeatKind>, j: nat)
    requires j < |seats|
    ensures Marked(seats, m)[j].kind == if KeyOf(seats[j]) in m then m[KeyOf(seats[j])] else seats[j].kind
  {
  }

  lemma {:induction false} MarkLast(seats: seq<Seat>, m: map<string, SeatKind>, key: string, given: SeatKind, kind: SeatKind)
    requires UniqueKeys(seats) && seats != []
    requires var last := seats[|seats| - 1]; last.kind.Standard? && KeyOf(last) == key && key !in m
    requires !kind.Standard?
    ensures Count(Marked(seats, m[key := given]), kind) == Count(Marked(seats, m), kind) + if given == kind then 1 else 0
  {
    var n := |seats| - 1;
    CountMarked(seats, m, kind);
    CountMarked(seats, m[key := given], kind);
    MarkedAt(seats, m, n);
    MarkedAt(seats, m[key := given], n);
    forall k | 0 <= k < n
      ensures KeyOf(seats[..n][k]) != key
    {
      assert KeyOf(seats[k]) != KeyOf(seats[n]);
    }
    ForeignKey(seats[..n], m, key, given);
  }

  /** Marking one more chair, not marked before and plain till then, adds one to its new kind and to no other. */
  lemma {:induction false} MarkOne(seats: seq<Seat>, m: map<string, SeatKind>, j: nat, key: string, given: SeatKind, kind: SeatKind)
    requires UniqueKeys(seats) && j < |seats| && seats[j].kind.Standard? && KeyOf(seats[j]) == key && key !in m
    requires !kind.Standard?
    ensures Count(Marked(seats, m[key := given]), kind) == Count(Marked(seats, m), kind) + if given == kind then 1 else 0
  {
    var n := |seats| - 1;
    if j == n {
      MarkLast(seats, m, key, given, kind);
    } else {
      var more := m[key := given];
      assert KeyOf(seats[j]) != KeyOf(seats[n]);
      MarkOne(seats[..n], m, j, key, given, kind);
      CountMarked(seats, m, kind);
      CountMarked(seats, more, kind);
      MarkedAt(seats, m, n);
      MarkedAt(seats, more, n);
    }
  }

  // ------------------------------------------------------ no chair taken twice

  lemma {:induction false} TwiceCounts<T>(s: seq<T>, i: nat, j: nat)
    requires i < j < |s| && s[i] == s[j]
    ensures multiset(s)[s[i]] >= 2
  {
    assert s == s[..j] + [s[j]] + s[j + 1..];
    assert s[..j][i] == s[i];
    assert s[i] in multiset(s[..j]);
  }

  lemma {:induction false} OnceAtMost(seats: seq<Seat>, x: Seat)
    requires UniqueKeys(seats)
    ensures multiset(seats)[x] <= 1
  {
    if seats != [] {
      var n := |seats| - 1;
      OnceAtMost(seats[..n], x);
      assert seats == seats[..n] + [seats[n]];
      forall k | 0 <= k < n
        ensures seats[..n][k] != seats[n]
      {
        assert KeyOf(seats[k]) != KeyOf(seats[n]);
      }
      assert seats[n] !in seats[..n];
    }
  }

  lemma {:induction false} UnmarkedAreSome(back: seq<Seat>)
    ensures multiset(Unmarked(back)) <= multiset(back)
    ensures forall k | 0 <= k < |Unmarked(back)| :: Unmarked(back)[k].kind.Standard?
  {
    if back != [] {
      UnmarkedAreSome(back[..|back| - 1]);
      assert back == back[..|back| - 1] + [back[|back| - 1]];
    }
  }

  lemma {:induction false} BackAreSome(seats: seq<Seat>, all: seq<Seat>)
    ensures multiset(BackOf(seats, all)) <= multiset(seats)
    ensures forall k | 0 <= k < |BackOf(seats, all)| ::
              BackOf(seats, all)[k].rowOrder == LastRow(all, BackOf(seats, all)[k].section)
  {
    if seats != [] {
      BackAreSome(seats[..|seats| - 1], all);
      assert seats == seats[..|seats| - 1] + [seats[|seats| - 1]];
    }
  }

  lemma {:induction false} KeysAreTakenOnce(seats: seq<Seat>, chairs: seq<Seat>, i: nat, j: nat)
    requires UniqueKeys(seats) && multiset(chairs) <= multiset(seats) && i < j < |chairs|
    ensures KeyOf(chairs[i]) != KeyOf(chairs[j])
  {
    var a := PlaceOf(seats, chairs, i);
    var b := PlaceOf(seats, chairs, j);
    if KeyOf(chairs[i]) == KeyOf(chairs[j]) {
      assert a == b;
      TwiceCounts(chairs, i, j);
      OnceAtMost(seats, chairs[i]);
    }
  }

  lemma {:induction false} PlaceOf(seats: seq<Seat>, chairs: seq<Seat>, i: nat) returns (a: nat)
    requires multiset(chairs) <= multiset(seats) && i < |chairs|
    ensures a < |seats| && seats[a] == chairs[i]
  {
    assert chairs[i] in multiset(chairs);
    assert chairs[i] in multiset(seats);
    a :| 0 <= a < |seats| && seats[a] == chairs[i];
  }

  /** The chairs there are to give: plain chairs of the back rows, each once. */
  ghost predicate Givable(seats: seq<Seat>, chairs: seq<Seat>) {
    && multiset(chairs) <= multiset(seats)
    && forall k | 0 <= k < |chairs| :: chairs[k].kind.Standard? && chairs[k].rowOrder == LastRow(seats, chairs[k].section)
  }

  lemma {:induction false} UnmarkedAreGivable(seats: seq<Seat>, back: seq<Seat>)
    requires SameChairs(back, BackOf(seats, seats))
    ensures Givable(seats, Unmarked(back))
  {
    UnmarkedAreSome(back);
    BackAreSome(seats, seats);
    var listed := BackOf(seats, seats);
    forall k | 0 <= k < |Unmarked(back)|
      ensures Unmarked(back)[k].rowOrder == LastRow(seats, Unmarked(back)[k].section)
    {
      var j := PlaceOf(listed, Unmarked(back), k);
    }
  }

  lemma {:induction false} HandedKeys(chairs: seq<Seat>, kinds: seq<SeatKind>, n: nat, key: string)
    requires n <= |chairs| && n <= |kinds|
    ensures key in Handed(chairs, kinds, n) <==> exists k :: 0 <= k < n && KeyOf(chairs[k]) == key
  {
    if n > 0 {
      HandedKeys(chairs, kinds, n - 1, key);
    }
  }

  lemma {:induction false} NotHandedYet(seats: seq<Seat>, chairs: seq<Seat>, kinds: seq<SeatKind>, n: nat)
    requires UniqueKeys(seats) && Givable(seats, chairs) && n < |chairs| && n <= |kinds|
    ensures KeyOf(chairs[n]) !in Handed(chairs, kinds, n)
  {
    HandedKeys(chairs, kinds, n, KeyOf(chairs[n]));
    forall k | 0 <= k < n
      ensures KeyOf(chairs[k]) != KeyOf(chairs[n])
    {
      KeysAreTakenOnce(seats, chairs, k, n);
    }
  }

  lemma {:induction false} CountOfNext(kinds: seq<SeatKind>, n: nat, kind: SeatKind)
    requires n < |kinds|
    ensures CountKind(kinds[..n + 1], kind) == CountKind(kinds[..n], kind) + if kinds[n] == kind then 1 else 0
  {
    assert kinds[..n + 1][..n] == kinds[..n];
  }

  /** Handing out the first `n` kinds adds exactly those kinds to the room. */
  lemma {:induction false} TallyAfter(seats: seq<Seat>, chairs: seq<Seat>, kinds: seq<SeatKind>, n: nat, kind: SeatKind)
    requires UniqueKeys(seats) && Givable(seats, chairs) && n <= |chairs| && n <= |kinds| && !kind.Standard?
    ensures Count(Marked(seats, Handed(chairs, kinds, n)), kind) == Count(seats, kind) + CountKind(kinds[..n], kind)
  {
    if n == 0 {
      assert Marked(seats, map[]) == seats;
    } else {
      TallyAfter(seats, chairs, kinds, n - 1, kind);
      CountOfNext(kinds, n - 1, kind);
      var j := PlaceOf(seats, chairs, n - 1);
      NotHandedYet(seats, chairs, kinds, n - 1);
      MarkOne(seats, Handed(chairs, kinds, n - 1), j, KeyOf(chairs[n - 1]), kinds[n - 1], kind);
    }
  }

  // ------------------------------------------------------------ what is wanted

  function Positive(n: int): nat { if n > 0 then n else 0 }

  lemma {:induction false} CountOfRepeated(kind: SeatKind, n: int, other: SeatKind)
    ensures CountKind(Repeated(kind, n), other) == if kind == other then Positive(n) else 0
  {
    if n > 0 {
      CountOfRepeated(kind, n - 1, other);
    }
  }

  lemma {:induction false} CountOfConcat(a: seq<SeatKind>, b: seq<SeatKind>, kind: SeatKind)
    ensures CountKind(a + b, kind) == CountKind(a, kind) + CountKind(b, kind)
    decreases |b|
  {
    if b == [] {
      assert a + b == a;
    } else {
      assert (a + b)[..|a + b| - 1] == a + b[..|b| - 1];
      CountOfConcat(a, b[..|b| - 1], kind);
    }
  }

  lemma {:induction false} CountOfOne(a: seq<SeatKind>, given: SeatKind, kind: SeatKind)
    ensures CountKind(a + [given], kind) == CountKind(a, kind) + if given == kind then 1 else 0
  {
    assert (a + [given])[..|a|] == a;
  }

  lemma {:induction false} CountOfPairs(w: int, c: int, n: int, kind: SeatKind)
    ensures CountKind(Pairs(w, c, n), kind)
            == if kind.Wheelchair? then Positive(Fewest(w, n)) else if kind.Companion? then Positive(Fewest(c, n)) else 0
  {
    if n > 0 {
      CountOfPairs(w, c, n - 1, kind);
      PairsNext(w, c, n);
      var before := Pairs(w, c, n - 1);
      CountOfOne(before, Wheelchair, kind);
      CountOfOne(before, Companion, kind);
      CountOfOne(before + [Wheelchair], Companion, kind);
    }
  }

  /** Of each kind exactly what is missing, if anything is. */
  lemma {:induction false} WantedIsMissing(n: Needs, kind: SeatKind)
    ensures CountKind(Wanted(n), kind)
            == match kind
               case Wheelchair => Positive(n.wheelchair)
               case Companion => Positive(n.companion)
               case Obese => Positive(n.obese)
               case ReducedMobility => Positive(n.reduced)
               case _ => 0
  {
    var pairs := Pairs(n.wheelchair, n.companion, Largest(n.wheelchair, n.companion));
    CountOfPairs(n.wheelchair, n.companion, Largest(n.wheelchair, n.companion), kind);
    CountOfConcat(pairs, Repeated(Obese, n.obese), kind);
    CountOfConcat(pairs + Repeated(Obese, n.obese), Repeated(ReducedMobility, n.reduced), kind);
    CountOfRepeated(Obese, n.obese, kind);
    CountOfRepeated(ReducedMobility, n.reduced, kind);
  }

  lemma {:induction false} PrefixCounts(kinds: seq<SeatKind>, n: nat, kind: SeatKind)
    requires n <= |kinds|
    ensures CountKind(kinds[..n], kind) <= CountKind(kinds, kind)
  {
    assert kinds == kinds[..n] + kinds[n..];
    CountOfConcat(kinds[..n], kinds[n..], kind);
  }

  ghost predicate FourKinds(kinds: seq<SeatKind>) {
    CountKind(kinds, Standard) == 0 && CountKind(kinds, UnknownKind) == 0
  }

  lemma {:induction false} FourKindsSum(kinds: seq<SeatKind>)
    requires FourKinds(kinds)
    ensures |kinds| == CountKind(kinds, Wheelchair) + CountKind(kinds, Companion) + CountKind(kinds, Obese)
                       + CountKind(kinds, ReducedMobility)
  {
    if kinds != [] {
      FourKindsSum(kinds[..|kinds| - 1]);
    }
  }

  // --------------------------------------------------------------- theorems

  /** A suggestion for a room, over whichever arrangement of its back rows it was handed out. */
  ghost predicate IsSuggestion(seats: seq<Seat>, standing: int, back: seq<Seat>, m: map<string, SeatKind>) {
    SameChairs(back, BackOf(seats, seats)) && m == Suggested(back, Wanted(NeedsOf(Measured(seats, standing))))
  }

  /** No tally is lowered, and of each kind no more is claimed than is missing. */
  lemma {:induction false} NoTallyIsLowered(
      seats: seq<Seat>, standing: int, back: seq<Seat>, m: map<string, SeatKind>, kind: SeatKind)
    requires UniqueKeys(seats) && IsSuggestion(seats, standing, back, m) && !kind.Standard?
    ensures Count(seats, kind) <= Count(Marked(seats, m), kind)
            <= Count(seats, kind) + CountKind(Wanted(NeedsOf(Measured(seats, standing))), kind)
    ensures Measured(Marked(seats, m), standing).requiredWheelchair == Measured(seats, standing).requiredWheelchair
  {
    var kinds := Wanted(NeedsOf(Measured(seats, standing)));
    SuggestionTally(seats, back, kinds, kind);
    PrefixCounts(kinds, Fewest(|Unmarked(back)|, |kinds|), kind);
  }

  /** Only plain chairs of a section's last row are marked. */
  lemma {:induction false} OnlyBackRowsAreMarked(
      seats: seq<Seat>, standing: int, back: seq<Seat>, m: map<string, SeatKind>, k: nat)
    requires UniqueKeys(seats) && IsSuggestion(seats, standing, back, m)
    requires k < |seats| && KeyOf(seats[k]) in m
    ensures seats[k].kind.Standard? && InBackRow(seats, seats[k])
  {
    var kinds, chairs := Wanted(NeedsOf(Measured(seats, standing))), Unmarked(back);
    UnmarkedAreGivable(seats, back);
    HandedKeys(chairs, kinds, Fewest(|chairs|, |kinds|), KeyOf(seats[k]));
    var i :| 0 <= i < Fewest(|chairs|, |kinds|) && KeyOf(chairs[i]) == KeyOf(seats[k]);
    var a := PlaceOf(seats, chairs, i);
    assert a == k;
  }

  /** The room meets the decree after marking exactly when its back rows had a plain chair for every kind missing. */
  lemma {:induction false} CompliantExactlyWhenEnough(seats: seq<Seat>, standing: int, back: seq<Seat>, m: map<string, SeatKind>)
    requires UniqueKeys(seats) && IsSuggestion(seats, standing, back, m)
    ensures Measured(Marked(seats, m), standing).Compliant()
       <==> Count(BackOf(seats, seats), Standard) >= |Wanted(NeedsOf(Measured(seats, standing)))|
  {
    var report := Measured(seats, standing);
    var needs := NeedsOf(report);
    var kinds, chairs := Wanted(needs), Unmarked(back);
    var n := Fewest(|chairs|, |kinds|);
    PlainChairs(seats, back);
    HandedOut(needs, n);
    MeasuredAfter(seats, standing, back, kinds);
    QuotasMet(report, CountKind(kinds[..n], Wheelchair), CountKind(kinds[..n], Companion),
              CountKind(kinds[..n], ReducedMobility), CountKind(kinds[..n], Obese));
  }

  function Raised(r: Compliance, w: nat, c: nat, d: nat, o: nat): Compliance {
    r.(haveWheelchair := r.haveWheelchair + w, haveCompanion := r.haveCompanion + c,
       haveReduced := r.haveReduced + d + o, haveObese := r.haveObese + o)
  }

  lemma {:induction false} MeasuredAfter(seats: seq<Seat>, standing: int, back: seq<Seat>, kinds: seq<SeatKind>)
    requires UniqueKeys(seats) && SameChairs(back, BackOf(seats, seats))
    ensures var given := kinds[..Fewest(|Unmarked(back)|, |kinds|)];
            Measured(Marked(seats, Suggested(back, kinds)), standing)
            == Raised(Measured(seats, standing), CountKind(given, Wheelchair), CountKind(given, Companion),
                      CountKind(given, ReducedMobility), CountKind(given, Obese))
  {
    SuggestionTally(seats, back, kinds, Wheelchair);
    SuggestionTally(seats, back, kinds, Companion);
    SuggestionTally(seats, back, kinds, Obese);
    SuggestionTally(seats, back, kinds, ReducedMobility);
  }

  lemma {:induction false} SuggestionTally(seats: seq<Seat>, back: seq<Seat>, kinds: seq<SeatKind>, kind: SeatKind)
    requires UniqueKeys(seats) && SameChairs(back, BackOf(seats, seats)) && !kind.Standard?
    ensures var given := kinds[..Fewest(|Unmarked(back)|, |kinds|)];
            Count(Marked(seats, Suggested(back, kinds)), kind) == Count(seats, kind) + CountKind(given, kind)
  {
    UnmarkedAreGivable(seats, back);
    TallyAfter(seats, Unmarked(back), kinds, Fewest(|Unmarked(back)|, |kinds|), kind);
  }

  /** Within what is missing, the quotas are met exactly when all that is missing is given. */
  lemma {:induction false} QuotasMet(r: Compliance, w: nat, c: nat, d: nat, o: nat)
    requires var needs := NeedsOf(r);
             w <= Positive(needs.wheelchair) && c <= Positive(needs.companion) && d <= Positive(needs.reduced) && o <= Positive(needs.obese)
    ensures Raised(r, w, c, d, o).Compliant()
       <==> var needs := NeedsOf(r);
            && w == Positive(needs.wheelchair) && c == Positive(needs.companion)
            && d == Positive(needs.reduced) && o == Positive(needs.obese)
  {
  }

  lemma {:induction false} PlainChairs(seats: seq<Seat>, back: seq<Seat>)
    requires SameChairs(back, BackOf(seats, seats))
    ensures |Unmarked(back)| == Count(BackOf(seats, seats), Standard)
  {
    UnmarkedCounts(back);
    CountIgnoresOrder(back, BackOf(seats, seats), Standard);
  }

  /** Handing out all that is wanted gives each kind what it misses; handing out less leaves some kind short. */
  lemma {:induction false} HandedOut(needs: Needs, n: nat)
    requires n <= |Wanted(needs)|
    ensures var given := Wanted(needs)[..n];
            && CountKind(given, Wheelchair) <= Positive(needs.wheelchair) && CountKind(given, Companion) <= Positive(needs.companion)
            && CountKind(given, Obese) <= Positive(needs.obese) && CountKind(given, ReducedMobility) <= Positive(needs.reduced)
            && (n == |Wanted(needs)| <==>
                  && CountKind(given, Wheelchair) == Positive(needs.wheelchair)
                  && CountKind(given, Companion) == Positive(needs.companion)
                  && CountKind(given, Obese) == Positive(needs.obese)
                  && CountKind(given, ReducedMobility) == Positive(needs.reduced))
  {
    var kinds := Wanted(needs);
    WantedIsMissing(needs, Wheelchair);
    WantedIsMissing(needs, Companion);
    WantedIsMissing(needs, Obese);
    WantedIsMissing(needs, ReducedMobility);
    WantedIsMissing(needs, Standard);
    WantedIsMissing(needs, UnknownKind);
    PrefixCounts(kinds, n, Wheelchair);
    PrefixCounts(kinds, n, Companion);
    PrefixCounts(kinds, n, Obese);
    PrefixCounts(kinds, n, ReducedMobility);
    PrefixCounts(kinds, n, Standard);
    PrefixCounts(kinds, n, UnknownKind);
    FourKindsSum(kinds);
    FourKindsSum(kinds[..n]);
  }

  lemma {:induction false} UnmarkedCounts(back: seq<Seat>)
    ensures |Unmarked(back)| == Count(back, Standard)
  {
    if back != [] {
      UnmarkedCounts(back[..|back| - 1]);
    }
  }

  lemma {:induction false} CountWithout(s: seq<Seat>, i: nat, kind: SeatKind)
    requires i < |s|
    ensures Count(s[..i] + s[i + 1..], kind) == Count(s, kind) - if s[i].kind == kind then 1 else 0
    decreases |s|
  {
    var n := |s| - 1;
    var rest := s[..i] + s[i + 1..];
    if i < n {
      CountWithout(s[..n], i, kind);
      assert rest == (s[..n][..i] + s[..n][i + 1..]) + [s[n]];
      assert rest[..|rest| - 1] == s[..n][..i] + s[..n][i + 1..];
    } else {
      assert rest == s[..n];
    }
  }

  lemma {:induction false} Without<T>(s: seq<T>, i: nat)
    requires i < |s|
    ensures multiset(s) == multiset(s[..i] + s[i + 1..]) + multiset{s[i]}
  {
    assert s == s[..i] + [s[i]] + s[i + 1..];
  }

  lemma {:induction false} Cancel<T>(a: multiset<T>, b: multiset<T>, x: T)
    requires a + multiset{x} == b + multiset{x}
    ensures a == b
  {
    assert a == (a + multiset{x}) - multiset{x};
    assert b == (b + multiset{x}) - multiset{x};
  }

  lemma {:induction false} CountIgnoresOrder(a: seq<Seat>, b: seq<Seat>, kind: SeatKind)
    requires multiset(a) == multiset(b)
    ensures Count(a, kind) == Count(b, kind)
    decreases |a|
  {
    if a == [] {
      assert multiset(b) == multiset{};
      assert |multiset(b)| == |b|;
    } else {
      var n := |a| - 1;
      assert a[n] in multiset(b);
      var i :| 0 <= i < |b| && b[i] == a[n];
      var rest := b[..i] + b[i + 1..];
      Without(a, n);
      Without(b, i);
      assert a[..n] + a[n + 1..] == a[..n];
      Cancel(multiset(a[..n]), multiset(rest), a[n]);
      CountIgnoresOrder(a[..n], rest, kind);
      CountWithout(b, i, kind);
    }
  }
}
