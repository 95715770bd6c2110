/** Every transaction of the sale protocol keeps its invariant. */
module SalesSteps {
  import opened Results
  import opened Text
  import opened Orders
  import opened Tickets
  import opened Basket
  import BasketTheorems
  import opened Sales
  import opened SalesInvariant

  // --------------------------------------------------------------- admissions

  lemma {:induction false} GivenOfConcat(a: seq<Admission>, b: seq<Admission>, i: nat)
    ensures Given(a + b, i) == Given(a, i) + Given(b, i)
    decreases |b|
  {
    if b == [] {
      assert a + b == a;
    } else {
      var n := |b| - 1;
      assert (a + b)[..|a + b| - 1] == a + b[..n];
      GivenOfConcat(a, b[..n], i);
    }
  }

  lemma {:induction false} GivenOfFresh(i: nat, credentials: seq<Credential>, j: nat)
    ensures Given(Fresh(i, credentials), j) == if i == j then credentials else []
  {
    if credentials != [] {
      var n := |credentials| - 1;
      assert Fresh(i, credentials)[..n] == Fresh(i, credentials[..n]);
      GivenOfFresh(i, credentials[..n], j);
    }
  }

  /** Stamping admissions moves no credential. */
  lemma {:induction false} GivenIgnoresStamps(a: seq<Admission>, b: seq<Admission>, i: nat)
    requires |a| == |b|
    requires forall k | 0 <= k < |a| :: a[k].order == b[k].order && a[k].credential == b[k].credential
    ensures Given(a, i) == Given(b, i)
  {
    if a != [] {
      GivenIgnoresStamps(a[..|a| - 1], b[..|b| - 1], i);
    }
  }

  lemma {:induction false} NothingGiven(admissions: seq<Admission>, i: nat)
    requires forall a | 0 <= a < |admissions| :: admissions[a].order != i
    ensures Given(admissions, i) == []
  {
    if admissions != [] {
      NothingGiven(admissions[..|admissions| - 1], i);
    }
  }

  lemma {:induction false} SomethingGiven(admissions: seq<Admission>, a: nat)
    requires a < |admissions|
    ensures Given(admissions, admissions[a].order) != []
  {
    var n := |admissions| - 1;
    if a < n {
      SomethingGiven(admissions[..n], a);
    }
  }

  lemma {:induction false} IssuingGives(admissions: seq<Admission>, i: nat, lines: seq<Line>, j: nat)
    requires Given(admissions, i) in {[], Minted(lines)}
    ensures Given(IssuedFor(admissions, i, lines), j) == if i == j then Minted(lines) else Given(admissions, j)
  {
    GivenOfConcat(admissions, Fresh(i, Minted(lines)), j);
    GivenOfFresh(i, Minted(lines), j);
  }

  // ------------------------------------------------------- a status transition

  /** The row changes status the way the table allows, and nothing else about what was bought. */
  lemma {:induction false} TurningFits(was: Row, next: Status, now: int)
    requires PaidDateFits(was) && CanTransition(was.status, next)
    ensures PaidDateFits(was.At(next, now))
    ensures was.At(next, now).paidAt.Some? <==> was.paidAt.Some? || next.Paid?
    ensures next.Paid? || next.RefundRequired? || was.status.HoldsStock() || (was.status.Paid? && next.Refunded?)
            || (was.status.RefundRequired? && next.Refunded?)
    ensures !next.HoldsStock() && (next.Paid? ==> was.paidAt.None?) && (was.status.Paid? ==> next.Refunded?)
  {
  }

  lemma {:induction false} TurningKeepsCredentials(o: Office, i: nat, next: Status, now: int)
    requires Inv(o) && i < |o.orders| && CanTransition(o.orders[i].status, next)
    ensures Admitting(Turned(o, i, next, now))
  {
    var was, row := o.orders[i], o.orders[i].At(next, now);
    var after := Turned(o, i, next, now);
    assert RowFits(o.tiers, o.chairs, was);
    TurningFits(was, next, now);
    assert HasItsCredentials(o.admissions, i, was);
    forall j | 0 <= j < |after.orders|
      ensures HasItsCredentials(after.admissions, j, after.orders[j])
    {
      assert HasItsCredentials(o.admissions, j, o.orders[j]);
      if next.Paid? {
        IssuingGives(o.admissions, i, row.lines, j);
      } else {
        GivenIgnoresStamps(o.admissions, after.admissions, j);
      }
    }
    forall a | 0 <= a < |after.admissions|
      ensures AdmissionFits(after.orders, after.admissions[a])
    {
      if a < |o.admissions| {
        assert AdmissionFits(o.orders, o.admissions[a]);
        if o.admissions[a].order == i {
          SomethingGiven(o.admissions, a);
        }
      }
    }
  }

  /** What a transition must find: the stock to take, if it takes any. */
  ghost predicate CanTurn(o: Office, i: nat, next: Status)
    requires i < |o.orders|
  {
    && CanTransition(o.orders[i].status, next)
    && (next.Paid? && !o.orders[i].status.HoldsStock() ==> CanRetake(o, o.orders[i]))
  }

  lemma {:induction false} TurningFindsChairs(o: Office, i: nat, next: Status, now: int)
    requires Inv(o) && i < |o.orders| && CanTurn(o, i, next)
    ensures FreeFor(o.chairs, i, o.orders[i].At(next, now))
  {
    var was := o.orders[i];
    assert RowFits(o.tiers, o.chairs, was);
    TurningFits(was, next, now);
    if next.Paid? {
      assert HasItsChairs(o.chairs, i, was);
      forall c | Names(was.lines, c)
        ensures c in o.chairs && (o.chairs[c].status.Available? || o.chairs[c].order == Some(i))
      {
        if was.status.HoldsStock() {
          assert Owns(o.chairs, i, was, c);
        } else {
          var k :| 0 <= k < |was.lines| && was.lines[k].seat == Some(c);
          assert Claimable(o.chairs, was.event, was.lines[k].tier, c);
        }
      }
    }
  }

  lemma {:induction false} TurningKeepsFits(o: Office, i: nat, next: Status, now: int)
    requires Fitting(o) && i < |o.orders| && CanTransition(o.orders[i].status, next)
    ensures Fitting(Turned(o, i, next, now))
  {
    var was, row := o.orders[i], o.orders[i].At(next, now);
    assert RowFits(o.tiers, o.chairs, was);
    TurningFits(was, next, now);
    assert RowFits(o.tiers, o.chairs, row) by {
      assert forall k | 0 <= k < |row.lines| :: LineFits(o.tiers, o.chairs, was.event, was.lines[k]);
    }
    StillFitting(o, Turned(o, i, next, now));
  }

  lemma {:induction false} TurningKeepsTallies(o: Office, i: nat, next: Status, now: int)
    requires Fitting(o) && Tallied(o) && i < |o.orders| && CanTurn(o, i, next)
    ensures Tallied(Turned(o, i, next, now))
  {
    var was, row := o.orders[i], o.orders[i].At(next, now);
    assert RowFits(o.tiers, o.chairs, was);
    TurningFits(was, next, now);
    QuantitiesOf(o, i);
    forall t | t in o.tiers
      ensures TierTallies(o.orders[i := row], t, Retallied(o.tiers, was, row)[t])
    {
      DemandIsNatural(row.lines, t);
      RetallyingKeepsTallies(o, i, was, row, t);
    }
  }

  lemma {:induction false} TurningKeepsSeats(o: Office, i: nat, next: Status, now: int)
    requires Inv(o) && i < |o.orders| && CanTurn(o, i, next)
    ensures Seated(Turned(o, i, next, now))
  {
    var row := o.orders[i].At(next, now);
    TurningFindsChairs(o, i, next, now);
    ReseatingKeepsChairs(o, i, row);
    var orders := With(o.orders, i, row);
    forall j | 0 <= j < |orders|
      ensures HasItsChairs(Reseated(o.chairs, i, row), j, orders[j])
    {
      ReseatingKeepsOwners(o, i, row, j);
    }
  }

  lemma {:induction false} TurningKeepsInv(o: Office, i: nat, next: Status, now: int)
    requires Inv(o) && i < |o.orders| && CanTurn(o, i, next)
    ensures Inv(Turned(o, i, next, now))
  {
    TurningKeepsFits(o, i, next, now);
    TurningKeepsTallies(o, i, next, now);
    TurningKeepsSeats(o, i, next, now);
    TurningKeepsCredentials(o, i, next, now);
  }

  // ---------------------------------------------------------- opening an order

  /** What normalisation promises about a basket: no tier twice, no chair twice, a chair per ticket. */
  ghost predicate Tidy(wanted: seq<DraftItem>) {
    wanted == []
    || (var n := |wanted| - 1;
        && Tidy(wanted[..n])
        && (forall k | 0 <= k < n :: wanted[k].ticketId != wanted[n].ticketId)
        && (wanted[n].Seated() ==> Distinct(wanted[n].seatIds) && wanted[n].quantity == |wanted[n].seatIds|))
  }

  lemma {:induction false} SortedIsDistinct(xs: seq<string>)
    requires StrictlySorted(xs)
    ensures Distinct(xs)
  {
    if xs != [] {
      LastIsLargest(xs);
      SortedIsDistinct(xs[..|xs| - 1]);
    }
  }

  lemma {:induction false} TidyPrefix(wanted: seq<DraftItem>, n: nat)
    requires n <= |wanted|
    requires forall j, k | 0 <= j < k < |wanted| :: wanted[j].ticketId != wanted[k].ticketId
    requires forall k | 0 <= k < |wanted| && wanted[k].Seated() ::
               Distinct(wanted[k].seatIds) && wanted[k].quantity == |wanted[k].seatIds|
    ensures Tidy(wanted[..n])
  {
    if n > 0 {
      TidyPrefix(wanted, n - 1);
      assert wanted[..n][..n - 1] == wanted[..n - 1];
    }
  }

  lemma {:induction false} NormalizedTiersDiffer(items: seq<DraftItem>, j: nat, k: nat)
    requires Normalized(items).Ok? && j < k < |Normalized(items).value|
    ensures Normalized(items).value[j].ticketId != Normalized(items).value[k].ticketId
  {
    BasketTheorems.ShapeOfTheResult(items);
    SortedMeans(TicketIds(Normalized(items).value), j, k);
    LessIrreflexive(Normalized(items).value[j].ticketId);
  }

  lemma {:induction false} NormalizedSeatsDiffer(items: seq<DraftItem>, k: nat)
    requires Normalized(items).Ok? && k < |Normalized(items).value|
    ensures var d := Normalized(items).value[k];
            d.Seated() ==> Distinct(d.seatIds) && d.quantity == |d.seatIds|
  {
    BasketTheorems.ShapeOfTheResult(items);
    var d := Normalized(items).value[k];
    assert BasketTheorems.RightLine(AskAll(items), d);
    if d.Seated() {
      SortedIsDistinct(d.seatIds);
    }
  }

  lemma {:induction false} NormalizedIsTidy(items: seq<DraftItem>)
    requires Normalized(items).Ok?
    ensures Tidy(Normalized(items).value) && Normalized(items).value != []
  {
    var wanted := Normalized(items).value;
    forall j, k | 0 <= j < k < |wanted|
      ensures wanted[j].ticketId != wanted[k].ticketId
    {
      NormalizedTiersDiffer(items, j, k);
    }
    forall k | 0 <= k < |wanted| && wanted[k].Seated()
      ensures Distinct(wanted[k].seatIds) && wanted[k].quantity == |wanted[k].seatIds|
    {
      NormalizedSeatsDiffer(items, k);
    }
    TidyPrefix(wanted, |wanted|);
    TakeAll(wanted);
  }

  /** Where an expanded line comes from. */
  lemma {:induction false} LineComesFrom(wanted: seq<DraftItem>, k: nat) returns (j: nat)
    requires k < |Expanded(wanted)|
    ensures j < |wanted| && Expanded(wanted)[k] in LinesOf(wanted[j])
  {
    var n := |wanted| - 1;
    if k < |Expanded(wanted[..n])| {
      j := LineComesFrom(wanted[..n], k);
      assert wanted[..n][j] == wanted[j];
    } else {
      j := n;
    }
  }

  lemma {:induction false} ExpandedLineFits(o: Office, event: string, wanted: seq<DraftItem>, k: nat)
    requires ChairsBelong(o.tiers, o.chairs)
    requires Offerable(o, event, wanted) && AllFree(o.chairs, event, Expanded(wanted)) && k < |Expanded(wanted)|
    ensures LineFits(o.tiers, o.chairs, event, Expanded(wanted)[k])
  {
    var j := LineComesFrom(wanted, k);
    var line := Expanded(wanted)[k];
    assert OnOffer(o.tiers, event, wanted[j]) && ChoosesChairs(o.chairs, event, wanted[j]);
    if line.seat.Some? {
      assert Claimable(o.chairs, event, line.tier, line.seat.value);
    }
  }

  lemma {:induction false} SeatsOfOneTier(d: DraftItem, before: seq<Line>, n: nat)
    requires d.Seated() && n <= |d.seatIds| && Distinct(d.seatIds) && DistinctSeats(before)
    requires forall k | 0 <= k < |d.seatIds| :: !Names(before, d.seatIds[k])
    ensures DistinctSeats(before + LinesOf(d)[..n])
  {
    var lines := before + LinesOf(d)[..n];
    if n == 0 {
      assert lines == before;
    } else {
      SeatsOfOneTier(d, before, n - 1);
      assert lines[..|lines| - 1] == before + LinesOf(d)[..n - 1];
      NextSeatIsNew(d, before, n);
    }
  }

  lemma {:induction false} NextSeatIsNew(d: DraftItem, before: seq<Line>, n: nat)
    requires d.Seated() && 0 < n <= |d.seatIds| && Distinct(d.seatIds) && !Names(before, d.seatIds[n - 1])
    ensures !Names(before + LinesOf(d)[..n - 1], d.seatIds[n - 1])
  {
    var lines := before + LinesOf(d)[..n - 1];
    DistinctPrefix(d.seatIds, n - 1);
    forall k | 0 <= k < |lines|
      ensures lines[k].seat != Some(d.seatIds[n - 1])
    {
      if k >= |before| {
        ElemsAreMembers(d.seatIds[..n - 1], d.seatIds[n - 1]);
        assert d.seatIds[..n - 1][k - |before|] == d.seatIds[k - |before|];
      }
    }
  }

  /** A chair has one tier, so no chair is named under two of them. */
  lemma {:induction false} NamedUnderOneTier(chairs: map<string, Chair>, event: string, wanted: seq<DraftItem>, d: DraftItem, c: string)
    requires AllFree(chairs, event, Expanded(wanted)) && Claimable(chairs, event, d.ticketId, c)
    requires forall k | 0 <= k < |wanted| :: wanted[k].ticketId != d.ticketId
    ensures !Names(Expanded(wanted), c)
  {
    var lines := Expanded(wanted);
    forall b | 0 <= b < |lines|
      ensures lines[b].seat != Some(c)
    {
      var j := LineComesFrom(wanted, b);
      assert lines[b].seat.Some? ==> Claimable(chairs, event, lines[b].tier, lines[b].seat.value);
    }
  }

  /** The last basket line's own lines come last, and the chairs among them are free too. */
  lemma {:induction false} FreeInTwoParts(chairs: map<string, Chair>, event: string, wanted: seq<DraftItem>)
    requires wanted != [] && AllFree(chairs, event, Expanded(wanted))
    ensures var d := wanted[|wanted| - 1];
            && AllFree(chairs, event, Expanded(wanted[..|wanted| - 1]))
            && (d.Seated() ==> forall k | 0 <= k < |d.seatIds| :: Claimable(chairs, event, d.ticketId, d.seatIds[k]))
  {
    var n := |wanted| - 1;
    var d, before, lines := wanted[n], Expanded(wanted[..n]), Expanded(wanted);
    forall k | 0 <= k < |before| && before[k].seat.Some?
      ensures Claimable(chairs, event, before[k].tier, before[k].seat.value)
    {
      assert lines[k] == before[k];
    }
    if d.Seated() {
      forall k | 0 <= k < |d.seatIds|
        ensures Claimable(chairs, event, d.ticketId, d.seatIds[k])
      {
        assert lines[|before| + k] == Line(d.ticketId, 1, Some(d.seatIds[k]));
      }
    }
  }

  lemma {:induction false} ExpandedSeatsAreDistinct(chairs: map<string, Chair>, event: string, wanted: seq<DraftItem>)
    requires Tidy(wanted) && AllFree(chairs, event, Expanded(wanted))
    ensures DistinctSeats(Expanded(wanted))
  {
    if wanted != [] {
      var n := |wanted| - 1;
      var d, before := wanted[n], Expanded(wanted[..n]);
      FreeInTwoParts(chairs, event, wanted);
      ExpandedSeatsAreDistinct(chairs, event, wanted[..n]);
      if d.Seated() {
        forall k | 0 <= k < |d.seatIds|
          ensures !Names(before, d.seatIds[k])
        {
          NamedUnderOneTier(chairs, event, wanted[..n], d, d.seatIds[k]);
        }
        SeatsOfOneTier(d, before, |d.seatIds|);
        TakeAll(LinesOf(d));
      } else {
        assert (before + LinesOf(d))[..|before|] == before;
      }
    }
  }

  lemma {:induction false} NewRowFits(o: Office, wanted: seq<DraftItem>, p: Purchase, now: int)
    requires Fitting(o) && Tidy(wanted) && Takeable(o, wanted)
    ensures var row := NewRow(o, wanted, p, now);
            && RowFits(o.tiers, o.chairs, row) && DistinctSeats(row.lines)
            && row.status.HoldsStock() && row.paidAt.None? && row.lines == Expanded(wanted)
            && row.event == o.tiers[wanted[0].ticketId].event
  {
    var event := o.tiers[wanted[0].ticketId].event;
    ExpandedSeatsAreDistinct(o.chairs, event, wanted);
    forall k | 0 <= k < |Expanded(wanted)|
      ensures LineFits(o.tiers, o.chairs, event, Expanded(wanted)[k])
    {
      ExpandedLineFits(o, event, wanted, k);
    }
  }

  /** A new pending order for what is free and within what is left. */
  ghost predicate Placeable(o: Office, row: Row) {
    && RowFits(o.tiers, o.chairs, row) && DistinctSeats(row.lines)
    && row.status.HoldsStock() && row.paidAt.None?
    && AllFree(o.chairs, row.event, row.lines) && Room(o.tiers, row.lines)
  }

  lemma {:induction false} PlacingKeepsFits(o: Office, row: Row)
    requires Fitting(o) && Placeable(o, row)
    ensures Fitting(Placed(o, row))
  {
    StillFitting(o, Placed(o, row));
  }

  lemma {:induction false} PlacingKeepsTallies(o: Office, row: Row)
    requires Fitting(o) && Tallied(o) && Placeable(o, row)
    ensures Tallied(Placed(o, row))
  {
    assert forall k | 0 <= k < |row.lines| :: LineFits(o.tiers, o.chairs, row.event, row.lines[k]);
    forall t | t in o.tiers
      ensures TierTallies(o.orders + [row], t, Retallied(o.tiers, NOTHING, row)[t])
    {
      RetallyingKeepsTallies(o, |o.orders|, NOTHING, row, t);
    }
  }

  lemma {:induction false} PlacingKeepsSeats(o: Office, row: Row)
    requires Seated(o) && Placeable(o, row)
    ensures Seated(Placed(o, row))
  {
    var i := |o.orders|;
    forall c | Names(row.lines, c)
      ensures c in o.chairs && o.chairs[c].status.Available?
    {
      var k :| 0 <= k < |row.lines| && row.lines[k].seat == Some(c);
      assert Claimable(o.chairs, row.event, row.lines[k].tier, c);
    }
    ReseatingKeepsChairs(o, i, row);
    var orders := With(o.orders, i, row);
    forall j | 0 <= j < |orders|
      ensures HasItsChairs(Reseated(o.chairs, i, row), j, orders[j])
    {
      ReseatingKeepsOwners(o, i, row, j);
    }
  }

  lemma {:induction false} PlacingKeepsCredentials(o: Office, row: Row)
    requires Admitting(o) && row.paidAt.None?
    ensures Admitting(Placed(o, row))
  {
    forall a | 0 <= a < |o.admissions|
      ensures AdmissionFits(o.orders + [row], o.admissions[a])
    {
      assert AdmissionFits(o.orders, o.admissions[a]);
    }
    NothingGiven(o.admissions, |o.orders|);
    forall j | 0 <= j < |o.orders| + 1
      ensures HasItsCredentials(o.admissions, j, (o.orders + [row])[j])
    {
      assert j < |o.orders| ==> HasItsCredentials(o.admissions, j, o.orders[j]);
    }
  }

  lemma {:induction false} PlacingKeepsInv(o: Office, row: Row)
    requires Inv(o) && Placeable(o, row)
    ensures Inv(Placed(o, row))
  {
    PlacingKeepsFits(o, row);
    PlacingKeepsTallies(o, row);
    PlacingKeepsSeats(o, row);
    PlacingKeepsCredentials(o, row);
  }

  lemma {:induction false} StartingKeepsInv(o: Office, p: Purchase, now: int)
    requires Inv(o)
    ensures Inv(Started(o, p, now))
  {
    var wanted := Normalized(p.items);
    if wanted.Ok? && Takeable(o, wanted.value) && p.formIsValid {
      NormalizedIsTidy(p.items);
      NewRowFits(o, wanted.value, p, now);
      PlacingKeepsInv(o, NewRow(o, wanted.value, p, now));
    }
  }

  // -------------------------------------------------------- the other steps

  lemma {:induction false} ApplyingKeepsInv(o: Office, i: nat, next: Status, now: int)
    requires Inv(o)
    requires i < |o.orders| && next.Paid? && !o.orders[i].status.HoldsStock() ==> CanRetake(o, o.orders[i])
    ensures Inv(Applied(o, i, next, now))
  {
    if i < |o.orders| && Decision(o.orders[i].status, next) == Ok(true) {
      TurningKeepsInv(o, i, next, now);
    }
  }

  lemma {:induction false} SettlingKeepsInv(o: Office, i: nat, charge: ChargeStatus, now: int)
    requires Inv(o)
    ensures Inv(Settled(o, i, charge, now))
  {
    if i < |o.orders| && Verdict(o, o.orders[i], charge).Some? {
      ApplyingKeepsInv(o, i, Verdict(o, o.orders[i], charge).value, now);
    }
  }

  lemma {:induction false} SweepingKeepsInv(o: Office, picks: seq<nat>, now: int)
    requires Inv(o)
    ensures Inv(Swept(o, picks, now))
  {
    if picks != [] {
      var before := Swept(o, picks[..|picks| - 1], now);
      SweepingKeepsInv(o, picks[..|picks| - 1], now);
      ApplyingKeepsInv(before, picks[|picks| - 1], Expired, now);
    }
  }

  /** Only the window and the mark of confirmation move. */
  lemma {:induction false} PressingKeepsInv(o: Office, i: nat, formIsValid: bool, holdFor: int, now: int)
    requires Inv(o)
    ensures Inv(Pressed(o, i, formIsValid, holdFor, now))
  {
    if i < |o.orders| {
      var was := o.orders[i];
      var row := Confirmation(was, formIsValid, holdFor, now).0;
      RewindowingKeepsInv(o, i, row);
    }
  }

  lemma {:induction false} RewindowingKeepsInv(o: Office, i: nat, row: Row)
    requires Inv(o) && i < |o.orders|
    requires row == o.orders[i].(holdExpiresAt := row.holdExpiresAt, confirmed := row.confirmed)
    ensures Inv(o.(orders := o.orders[i := row]))
  {
    RewindowingKeepsFits(o, i, row);
    RewindowingKeepsTallies(o, i, row);
    RewindowingKeepsOwners(o, i, row);
    RewindowingKeepsAdmissions(o, i, row);
  }

  lemma {:induction false} RewindowingKeepsFits(o: Office, i: nat, row: Row)
    requires Fitting(o) && i < |o.orders|
    requires row == o.orders[i].(holdExpiresAt := row.holdExpiresAt, confirmed := row.confirmed)
    ensures Fitting(o.(orders := o.orders[i := row]))
  {
    assert RowFits(o.tiers, o.chairs, o.orders[i]);
    assert RowFits(o.tiers, o.chairs, row) by {
      assert forall k | 0 <= k < |row.lines| :: LineFits(o.tiers, o.chairs, row.event, o.orders[i].lines[k]);
    }
    StillFitting(o, o.(orders := o.orders[i := row]));
  }

  lemma {:induction false} RewindowingKeepsTallies(o: Office, i: nat, row: Row)
    requires Tallied(o) && i < |o.orders|
    requires row == o.orders[i].(holdExpiresAt := row.holdExpiresAt, confirmed := row.confirmed)
    ensures Tallied(o.(orders := o.orders[i := row]))
  {
    forall t | t in o.tiers
      ensures TierTallies(o.orders[i := row], t, o.tiers[t])
    {
      SumsUpdated(o.orders, i, row, t);
      assert TierTallies(o.orders, t, o.tiers[t]);
    }
  }

  lemma {:induction false} RewindowingKeepsOwners(o: Office, i: nat, row: Row)
    requires Seated(o) && i < |o.orders|
    requires row == o.orders[i].(holdExpiresAt := row.holdExpiresAt, confirmed := row.confirmed)
    ensures Seated(o.(orders := o.orders[i := row]))
  {
    var orders := o.orders[i := row];
    forall c | c in o.chairs
      ensures ChairFits(orders, c, o.chairs[c])
    {
      assert ChairFits(o.orders, c, o.chairs[c]);
    }
    forall j | 0 <= j < |orders|
      ensures HasItsChairs(o.chairs, j, orders[j])
    {
      assert HasItsChairs(o.chairs, j, o.orders[j]);
    }
  }

  lemma {:induction false} RewindowingKeepsAdmissions(o: Office, i: nat, row: Row)
    requires Admitting(o) && i < |o.orders|
    requires row == o.orders[i].(holdExpiresAt := row.holdExpiresAt, confirmed := row.confirmed)
    ensures Admitting(o.(orders := o.orders[i := row]))
  {
    var orders := o.orders[i := row];
    forall j | 0 <= j < |orders|
      ensures HasItsCredentials(o.admissions, j, orders[j])
    {
      assert HasItsCredentials(o.admissions, j, o.orders[j]);
    }
    forall a | 0 <= a < |o.admissions|
      ensures AdmissionFits(orders, o.admissions[a])
    {
      assert AdmissionFits(o.orders, o.admissions[a]);
    }
  }

  /** A tier's own columns change, within bounds and never its counters. */
  lemma {:induction false} RewritingKeepsInv(o: Office, t: string, tier: Tier)
    requires Inv(o) && t in o.tiers
    requires tier.event == o.tiers[t].event && tier.sold == o.tiers[t].sold && tier.reserved == o.tiers[t].reserved
    requires tier.WithinBounds()
    ensures Inv(o.(tiers := o.tiers[t := tier]))
  {
    var after := o.(tiers := o.tiers[t := tier]);
    StillFitting(o, after);
    forall u | u in after.tiers
      ensures TierTallies(o.orders, u, after.tiers[u])
    {
      assert TierTallies(o.orders, u, o.tiers[u]);
    }
  }

  /** Free chairs are withheld, or withheld ones freed. */
  lemma {:induction false} BlockingKeepsInv(o: Office, chairs: map<string, Chair>)
    requires Inv(o)
    requires chairs.Keys == o.chairs.Keys
    requires forall c | c in chairs ::
               chairs[c] == o.chairs[c]
               || (!o.chairs[c].Occupied() && !chairs[c].Occupied() && chairs[c] == o.chairs[c].(status := chairs[c].status))
    ensures Inv(o.(chairs := chairs))
  {
    var after := o.(chairs := chairs);
    StillFitting(o, after);
    BlockingKeepsSeats(o, chairs);
  }

  lemma {:induction false} BlockingKeepsSeats(o: Office, chairs: map<string, Chair>)
    requires Seated(o)
    requires chairs.Keys == o.chairs.Keys
    requires forall c | c in chairs ::
               chairs[c] == o.chairs[c]
               || (!o.chairs[c].Occupied() && !chairs[c].Occupied() && chairs[c] == o.chairs[c].(status := chairs[c].status))
    ensures Seated(o.(chairs := chairs))
  {
    forall c | c in chairs
      ensures ChairFits(o.orders, c, chairs[c])
    {
      assert ChairFits(o.orders, c, o.chairs[c]);
    }
    forall j | 0 <= j < |o.orders|
      ensures HasItsChairs(chairs, j, o.orders[j])
    {
      assert HasItsChairs(o.chairs, j, o.orders[j]);
      forall c | Names(o.orders[j].lines, c) && Owns(o.chairs, j, o.orders[j], c)
        ensures Owns(chairs, j, o.orders[j], c)
      {
      }
    }
  }

  lemma {:induction false} ScanningKeepsInv(o: Office, a: nat, now: int)
    requires Inv(o)
    ensures Inv(Scanned(o, a, now))
  {
    var after := Scanned(o, a, now);
    forall j | 0 <= j < |o.orders|
      ensures HasItsCredentials(after.admissions, j, o.orders[j])
    {
      assert HasItsCredentials(o.admissions, j, o.orders[j]);
      GivenIgnoresStamps(o.admissions, after.admissions, j);
    }
    forall b | 0 <= b < |after.admissions|
      ensures AdmissionFits(o.orders, after.admissions[b])
    {
      assert AdmissionFits(o.orders, o.admissions[b]);
    }
  }

  /** A paid order already has its credentials: minting again mints nothing, unless there was nothing to mint. */
  lemma {:induction false} ReissuingChangesNothing(o: Office, i: nat)
    requires Inv(o)
    ensures Reissued(o, i) == o
  {
    if i < |o.orders| && o.orders[i].status.Paid? {
      assert RowFits(o.tiers, o.chairs, o.orders[i]);
      assert HasItsCredentials(o.admissions, i, o.orders[i]);
      if Given(o.admissions, i) == [] {
        assert Fresh(i, Minted(o.orders[i].lines)) == [];
        assert o.admissions + [] == o.admissions;
      }
    }
  }

  // ---------------------------------------------------------------- every run

  lemma {:induction false} StepKeepsInv(o: Office, step: Step, now: int)
    requires Inv(o)
    ensures Inv(After(o, step, now))
  {
    match step {
      case Start(p) => StartingKeepsInv(o, p, now);
      case Press(i, formIsValid, holdFor) => PressingKeepsInv(o, i, formIsValid, holdFor, now);
      case Cancel(i) => ApplyingKeepsInv(o, i, Cancelled, now);
      case Expire(i) => ApplyingKeepsInv(o, i, Expired, now);
      case Sweep(picks) => SweepingKeepsInv(o, picks, now);
      case Settle(i, charge) => SettlingKeepsInv(o, i, charge, now);
      case Reissue(i) => ReissuingChangesNothing(o, i);
      case Scan(a) => ScanningKeepsInv(o, a, now);
      case _ => OperatorKeepsInv(o, step, now);
    }
  }

  lemma {:induction false} OperatorKeepsInv(o: Office, step: Step, now: int)
    requires Inv(o)
    requires step.Edit? || step.Relist? || step.Rebind? || step.Block? || step.Unblock?
    ensures Inv(After(o, step, now))
  {
    match step {
      case Edit(t, seen, draft) => EditingKeepsInv(o, t, seen, draft);
      case Relist(t, seen, next) => WritingKeepsInv(o, t, seen.quantity, next);
      case Rebind(t, area) => RebindingKeepsInv(o, t, area);
      case Block(event, ids) => WithholdingKeepsInv(o, event, ids);
      case Unblock(event, ids) => RestoringKeepsInv(o, event, ids);
    }
  }

  lemma {:induction false} WithholdingKeepsInv(o: Office, event: string, ids: seq<string>)
    requires Inv(o)
    ensures Inv(Withheld(o, event, ids))
  {
    BlockingKeepsInv(o, Withheld(o, event, ids).chairs);
  }

  lemma {:induction false} RestoringKeepsInv(o: Office, event: string, ids: seq<string>)
    requires Inv(o)
    ensures Inv(Restored(o, event, ids))
  {
    BlockingKeepsInv(o, Restored(o, event, ids).chairs);
  }

  lemma {:induction false} EditingKeepsInv(o: Office, t: string, seen: Tier, draft: TierDraft)
    requires Inv(o)
    ensures Inv(Edited(o, t, seen, draft))
  {
    WritingKeepsInv(o, t, draft.quantity, if draft.status.Some? then draft.status.value else seen.status);
  }

  lemma {:induction false} WritingKeepsInv(o: Office, t: string, quantity: int, status: TierStatus)
    requires Inv(o)
    ensures Inv(Written(o, t, quantity, status))
  {
    if t in o.tiers && o.tiers[t].(quantity := quantity).WithinBounds() {
      RewritingKeepsInv(o, t, o.tiers[t].(quantity := quantity, status := status));
    }
  }

  lemma {:induction false} RebindingKeepsInv(o: Office, t: string, area: Option<int>)
    requires Inv(o)
    ensures Inv(Rebound(o, t, area))
  {
    if t in o.tiers {
      assert TierTallies(o.orders, t, o.tiers[t]);
      RewritingKeepsInv(o, t, o.tiers[t].(area := area));
    }
  }

  /** Every reachable state is consistent. */
  lemma {:induction false} EveryRunKeepsInv(o: Office, steps: seq<(Step, int)>)
    requires Inv(o)
    ensures Inv(Run(o, steps))
  {
    if steps != [] {
      var n := |steps| - 1;
      EveryRunKeepsInv(o, steps[..n]);
      StepKeepsInv(Run(o, steps[..n]), steps[n].0, steps[n].1);
    }
  }
}
