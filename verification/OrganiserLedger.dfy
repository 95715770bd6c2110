/**
 What each organiser is owed: signed entries that are only ever added (domain/ledger/ledger.go,
 domain/ledger/accrual.go, domain/ledger/repository.go) by the settlement, refund and payout paths
 (usecases/payout/service.go, infra/repositories/ledger/ledger_repository.go).
 */
module OrganiserLedger {
  import opened Results
  import B = BankingCalendar

  datatype Kind = Sale | Reserve | Refund | Chargeback | GatewayFee | Payout | Adjustment {
    predicate Withheld() { Reserve? }
  }

  /** An accrual's ids are derived from its order; every other entry has a fresh one. */
  datatype Id = Derived(order: string, n: nat) | Random(n: nat)

  datatype Entry = Entry(
    id: Id, organiser: string, event: string, order: string, kind: Kind, amount: int, availableAt: int)

  datatype LedgerError = ErrNoSaleOrder | ErrNoSaleEvent | ErrNoSaleEnd | ErrSaleNotWorth | ErrInvalidTerms
                       | ErrInvalidKind | ErrRefundTooMuch | ErrNoOrganiser | ErrZeroAmount | ErrWrongSign

  /** The signs that could not be right. */
  function Fault(e: Entry): Option<LedgerError> {
    if e.organiser == "" then Some(ErrNoOrganiser)
    else if e.amount == 0 then Some(ErrZeroAmount)
    else if (e.kind.Sale? || e.kind.Reserve?) && e.amount < 0 then Some(ErrWrongSign)
    else if (e.kind.Refund? || e.kind.Chargeback? || e.kind.GatewayFee? || e.kind.Payout?) && e.amount > 0 then Some(ErrWrongSign)
    else None
  }

  /** Somebody's money, of the sign its kind has: a sale is owed, a refund or a payout is taken, an adjustment is either. */
  predicate IsSound(e: Entry) {
    && e.organiser != "" && e.amount != 0
    && (e.kind in {Sale, Reserve} ==> e.amount > 0)
    && (e.kind in {Refund, Chargeback, GatewayFee, Payout} ==> e.amount < 0)
  }

  const BASIS := 10_000

  datatype Terms = Terms(reserveBasisPoints: int, settlementBusinessDays: int, reserveHold: int) {
    predicate Valid() { 0 <= reserveBasisPoints <= BASIS && settlementBusinessDays >= 1 }

    /** Rounded down: the odd centavo stays with the organiser. */
    function ReserveOn(amount: int): int {
      if reserveBasisPoints <= 0 || amount <= 0 then 0 else amount * reserveBasisPoints / BASIS
    }
  }

  const NEW_TERMS := Terms(2_000, 3, 45 * B.DAY)
  const STANDARD_TERMS := Terms(1_000, 3, 30 * B.DAY)
  const TRUSTED_TERMS := Terms(0, 1, 0)

  /** A paid order, reduced to what the ledger needs. `endsAt` is none for a missing date. */
  datatype Deal = Deal(order: string, event: string, organiser: string, face: int, endsAt: Option<int>)

  // ---------------------------------------------------------------- accrual

  /** The entries of one sale: what is due at settlement, and what is held back longer. */
  function Batch(d: Deal, terms: Terms, settlesAt: int): seq<Entry> {
    var withheld := terms.ReserveOn(d.face);
    var due := d.face - withheld;
    var now := if due > 0 then [Entry(Derived(d.order, 1), d.organiser, d.event, d.order, Sale, due, settlesAt)] else [];
    if withheld > 0
    then now + [Entry(Derived(d.order, |now| + 1), d.organiser, d.event, d.order, Reserve, withheld, settlesAt + terms.reserveHold)]
    else now
  }

  function Refusal(d: Deal, terms: Terms): Option<LedgerError> {
    if d.order == "" then Some(ErrNoSaleOrder)
    else if d.event == "" || d.organiser == "" then Some(ErrNoSaleEvent)
    else if d.endsAt.None? then Some(ErrNoSaleEnd)
    else if d.face <= 0 then Some(ErrSaleNotWorth)
    else if !terms.Valid() then Some(ErrInvalidTerms)
    else None
  }

  lemma {:induction false} ProductsCompare(a: int, b: int, c: int)
    requires a >= 0 && 0 <= b <= c
    ensures 0 <= a * b <= a * c
  {
    assert a * (c - b) >= 0;
  }

  lemma {:induction false} ReserveIsASlice(terms: Terms, amount: int)
    requires terms.Valid() && amount > 0
    ensures 0 <= terms.ReserveOn(amount) <= amount
    ensures BASIS * terms.ReserveOn(amount) <= amount * terms.reserveBasisPoints < BASIS * (terms.ReserveOn(amount) + 1)
  {
    ProductsCompare(amount, terms.reserveBasisPoints, BASIS);
    var x := amount * terms.reserveBasisPoints;
    assert x == BASIS * (x / BASIS) + x % BASIS;
  }

  /** One or two positive entries of one order, numbered from one, worth its face value. */
  ghost predicate IsBatchOf(order: string, face: int, batch: seq<Entry>) {
    && (|batch| == 1 || |batch| == 2)
    && batch[0].id == Derived(order, 1) && batch[0].order == order && batch[0].amount > 0
    && (|batch| == 1 ==> batch[0].amount == face)
    && (|batch| == 2 ==>
          && batch[1].id == Derived(order, 2) && batch[1].order == order && batch[1].amount > 0
          && batch[0].amount + batch[1].amount == face)
  }

  /** The split loses nothing and makes nothing, and is in two exactly when something is held back and something is not. */
  lemma {:induction false} BatchIsTheFace(d: Deal, terms: Terms, settlesAt: int)
    requires d.face > 0 && terms.Valid()
    ensures IsBatchOf(d.order, d.face, Batch(d, terms, settlesAt))
    ensures |Batch(d, terms, settlesAt)| == 2 <==> 0 < terms.ReserveOn(d.face) < d.face
  {
    ReserveIsASlice(terms, d.face);
  }

  /** An entry of the deal's own, the `n`-th, for so much, of such a kind, from then on. */
  predicate Says(e: Entry, d: Deal, n: nat, kind: Kind, amount: int, availableAt: int) {
    && e.id == Derived(d.order, n) && e.order == d.order && e.organiser == d.organiser && e.event == d.event
    && e.kind == kind && e.amount == amount && e.availableAt == availableAt
  }

  /**
   What is not withheld is a sale, due at settlement; what is withheld is a reserve, due exactly the hold
   later; and a part worth nothing has no entry.
   */
  ghost predicate PaysAndHolds(entries: seq<Entry>, d: Deal, withheld: int, settlesAt: int, reserveHold: int) {
    if withheld == 0 then
      |entries| == 1 && Says(entries[0], d, 1, Sale, d.face, settlesAt)
    else if withheld == d.face then
      |entries| == 1 && Says(entries[0], d, 1, Reserve, d.face, settlesAt + reserveHold)
    else
      && |entries| == 2
      && Says(entries[0], d, 1, Sale, d.face - withheld, settlesAt)
      && Says(entries[1], d, 2, Reserve, withheld, settlesAt + reserveHold)
  }

  lemma {:induction false} BatchPaysAndHolds(d: Deal, terms: Terms, settlesAt: int)
    requires d.face > 0 && terms.Valid()
    ensures PaysAndHolds(Batch(d, terms, settlesAt), d, terms.ReserveOn(d.face), settlesAt, terms.reserveHold)
  {
    ReserveIsASlice(terms, d.face);
  }

  /** Every sale settles strictly after the show, on the banking day its terms name. */
  method Accrue(d: Deal, terms: Terms, calendar: B.Calendar, ghost horizon: nat)
    returns (r: Result<seq<Entry>, LedgerError>)
    requires Refusal(d, terms).None? ==>
               calendar.Count(calendar.DayOf(d.endsAt.value), horizon) >= terms.settlementBusinessDays
    ensures Refusal(d, terms).Some? ==> r == Err(Refusal(d, terms).value)
    ensures Refusal(d, terms).None? ==>
              r.Ok? && exists settlesAt | Settles(calendar, d.endsAt.value, terms, settlesAt) ::
                && r.value == Batch(d, terms, settlesAt)
                && PaysAndHolds(r.value, d, terms.ReserveOn(d.face), settlesAt, terms.reserveHold)
    ensures r.Ok? <==>
              && d.order != "" && d.event != "" && d.organiser != "" && d.endsAt.Some? && d.face > 0
              && 0 <= terms.reserveBasisPoints <= 10_000 && terms.settlementBusinessDays >= 1
    ensures r.Ok? && terms.reserveHold >= 0 ==>
              forall k | 0 <= k < |r.value| :: r.value[k].availableAt > d.endsAt.value && Fault(r.value[k]).None?
  {
    if d.order == "" {
      return Err(ErrNoSaleOrder);
    }
    if d.event == "" || d.organiser == "" {
      return Err(ErrNoSaleEvent);
    }
    if d.endsAt.None? {
      return Err(ErrNoSaleEnd);
    }
    if d.face <= 0 {
      return Err(ErrSaleNotWorth);
    }
    if !terms.Valid() {
      return Err(ErrInvalidTerms);
    }
    var settlesAt := B.AddBusinessDays(calendar, d.endsAt.value, terms.settlementBusinessDays, horizon);
    var withheld := terms.ReserveOn(d.face);
    var due := d.face - withheld;
    ReserveIsASlice(terms, d.face);
    var entries := [];
    if due > 0 {
      entries := entries + [Entry(Derived(d.order, 1), d.organiser, d.event, d.order, Sale, due, settlesAt)];
    }
    if withheld > 0 {
      entries := entries + [Entry(Derived(d.order, |entries| + 1), d.organiser, d.event, d.order, Reserve, withheld,
                                  settlesAt + terms.reserveHold)];
    }
    BatchPaysAndHolds(d, terms, settlesAt);
    assert Settles(calendar, d.endsAt.value, terms, settlesAt) && entries == Batch(d, terms, settlesAt);
    return Ok(entries);
  }

  ghost predicate Settles(calendar: B.Calendar, endsAt: int, terms: Terms, settlesAt: int) {
    && settlesAt > endsAt
    && terms.settlementBusinessDays >= 1
    && calendar.Lands(calendar.DayOf(endsAt), terms.settlementBusinessDays, calendar.DayOf(settlesAt))
    && calendar.TimeOfDay(settlesAt) == calendar.TimeOfDay(endsAt)
  }

  // ---------------------------------------------------------------- balance

  datatype Balance = Balance(available: int, pending: int, reserved: int, total: int)

  datatype Part = Available | Pending | Held

  function PartOf(e: Entry, now: int): Part {
    if e.availableAt <= now then Available else if e.kind.Withheld() then Held else Pending
  }

  /** What one organiser has in one part of their position. */
  function InPart(entries: seq<Entry>, organiser: string, part: Part, now: int): int {
    if entries == [] then 0
    else
      var last := entries[|entries| - 1];
      InPart(entries[..|entries| - 1], organiser, part, now)
      + if last.organiser == organiser && PartOf(last, now) == part then last.amount else 0
  }

  function Claim(entries: seq<Entry>, organiser: string): int {
    if entries == [] then 0
    else
      var last := entries[|entries| - 1];
      Claim(entries[..|entries| - 1], organiser) + if last.organiser == organiser then last.amount else 0
  }

  /** An entry is available from its instant on; until then it is held if it is a reserve, and pending if not. */
  lemma {:induction false} EachEntryIsInItsPart(entries: seq<Entry>, e: Entry, organiser: string, part: Part, now: int)
    ensures InPart(entries + [e], organiser, part, now) - InPart(entries, organiser, part, now)
            == if e.organiser == organiser
                  && (part.Available? <==> e.availableAt <= now) && (part.Held? <==> e.availableAt > now && e.kind.Reserve?)
               then e.amount else 0
  {
    assert (entries + [e])[..|entries|] == entries;
  }

  /** The three parts are the whole, at every instant. */
  lemma {:induction false} PartsAreTheWhole(entries: seq<Entry>, organiser: string, now: int)
    ensures InPart(entries, organiser, Available, now) + InPart(entries, organiser, Pending, now)
            + InPart(entries, organiser, Held, now) == Claim(entries, organiser)
  {
    if entries != [] {
      PartsAreTheWhole(entries[..|entries| - 1], organiser, now);
    }
  }

  // ----------------------------------------------------- one order's footprint

  function Earned(entries: seq<Entry>, order: string): int {
    if entries == [] then 0
    else
      var last := entries[|entries| - 1];
      Earned(entries[..|entries| - 1], order) + if last.order == order && last.amount > 0 then last.amount else 0
  }

  function Reversed(entries: seq<Entry>, order: string): int {
    if entries == [] then 0
    else
      var last := entries[|entries| - 1];
      Reversed(entries[..|entries| - 1], order) + if last.order == order && last.amount < 0 then -last.amount else 0
  }

  function Outstanding(entries: seq<Entry>, order: string): int { Earned(entries, order) - Reversed(entries, order) }

  /** What an order puts in the available balance at an instant. */
  function Contribution(entries: seq<Entry>, order: string, now: int): int {
    if entries == [] then 0
    else
      var last := entries[|entries| - 1];
      Contribution(entries[..|entries| - 1], order, now)
      + if last.order == order && last.availableAt <= now then last.amount else 0
  }

  // ----------------------------------------------------------------- append

  ghost predicate HasId(entries: seq<Entry>, id: Id) {
    exists k :: 0 <= k < |entries| && entries[k].id == id
  }

  /** Entries whose id is there already are discarded. */
  ghost function Appended(entries: seq<Entry>, batch: seq<Entry>): seq<Entry> {
    if batch == [] then entries
    else
      var before := Appended(entries, batch[..|batch| - 1]);
      if HasId(before, batch[|batch| - 1].id) then before else before + [batch[|batch| - 1]]
  }

  // ------------------------------------------------------------------ steps

  /** `next` numbers the random ids; the clock only moves forward. */
  datatype Ledger = Ledger(entries: seq<Entry>, next: nat, clock: int)

  datatype Step =
    | AccrueSale(deal: Deal, terms: Terms, settlesAt: int)
    | ReverseSale(order: string, organiser: string, event: string, kind: Kind, amount: int)
    | PayOut(organiser: string, amount: int)
    | Wait(until: int)

  /** Available as soon as it is written, whatever the sale's own dates were. */
  function Reversal(l: Ledger, order: string, organiser: string, event: string, kind: Kind, amount: int): Entry {
    Entry(Random(l.next), organiser, event, order, kind, -amount, l.clock)
  }

  function ReversalRefusal(order: string, organiser: string, event: string, kind: Kind, amount: int, accrued: int)
    : Option<LedgerError>
  {
    if !kind.Refund? && !kind.Chargeback? then Some(ErrInvalidKind)
    else if order == "" then Some(ErrNoSaleOrder)
    else if event == "" || organiser == "" then Some(ErrNoSaleEvent)
    else if amount <= 0 then Some(ErrSaleNotWorth)
    else if amount > accrued then Some(ErrRefundTooMuch)
    else None
  }

  ghost function After(l: Ledger, step: Step): Ledger {
    match step
    case AccrueSale(d, terms, settlesAt) =>
      if Refusal(d, terms).None? then l.(entries := Appended(l.entries, Batch(d, terms, settlesAt))) else l
    case ReverseSale(order, organiser, event, kind, amount) =>
      if ReversalRefusal(order, organiser, event, kind, amount, Outstanding(l.entries, order)).None?
      then l.(entries := l.entries + [Reversal(l, order, organiser, event, kind, amount)], next := l.next + 1)
      else l
    case PayOut(organiser, amount) =>
      if 0 < amount <= InPart(l.entries, organiser, Available, l.clock)
      then l.(entries := l.entries + [Entry(Random(l.next), organiser, "", "", Payout, -amount, l.clock)], next := l.next + 1)
      else l
    case Wait(until) => if until >= l.clock then l.(clock := until) else l
  }

  ghost function Run(l: Ledger, steps: seq<Step>): Ledger {
    if steps == [] then l else After(Run(l, steps[..|steps| - 1]), steps[|steps| - 1])
  }

  /** The facts of each order are what they were when it was sold, and its terms are the frozen ones. */
  datatype Book = Book(face: string -> int, terms: string -> Terms)

  ghost predicate ByTheBook(book: Book, steps: seq<Step>) {
    forall k | 0 <= k < |steps| && steps[k].AccrueSale? ::
      && steps[k].deal.face == book.face(steps[k].deal.order)
      && steps[k].terms == book.terms(steps[k].deal.order)
  }

  // -------------------------------------------------------------- invariant

  ghost predicate Splits(book: Book, order: string) {
    0 < book.terms(order).ReserveOn(book.face(order)) < book.face(order)
  }

  /** An order has accrued all of its face value, under the ids its split calls for, or nothing. */
  ghost predicate AccruedWhole(book: Book, entries: seq<Entry>, order: string) {
    && (HasId(entries, Derived(order, 2)) <==> HasId(entries, Derived(order, 1)) && Splits(book, order))
    && Earned(entries, order) == if HasId(entries, Derived(order, 1)) then book.face(order) else 0
  }

  ghost predicate EntryFits(clock: int, next: nat, e: Entry) {
    && e.amount != 0
    && (e.amount < 0 ==> e.availableAt <= clock)
    && (e.id.Random? ==> e.id.n < next)
  }

  ghost predicate AllFit(clock: int, next: nat, entries: seq<Entry>) {
    forall k | 0 <= k < |entries| :: EntryFits(clock, next, entries[k])
  }

  ghost predicate Inv(book: Book, l: Ledger) {
    && AllFit(l.clock, l.next, l.entries)
    && (forall order :: order != "" ==> AccruedWhole(book, l.entries, order) && Reversed(l.entries, order) <= Earned(l.entries, order))
  }

  // ---------------------------------------------------------- growing by one

  lemma {:induction false} GrownByOne(entries: seq<Entry>, e: Entry, order: string, now: int)
    ensures Earned(entries + [e], order) == Earned(entries, order) + if e.order == order && e.amount > 0 then e.amount else 0
    ensures Reversed(entries + [e], order) == Reversed(entries, order) + if e.order == order && e.amount < 0 then -e.amount else 0
    ensures Contribution(entries + [e], order, now)
            == Contribution(entries, order, now) + if e.order == order && e.availableAt <= now then e.amount else 0
  {
    assert (entries + [e])[..|entries|] == entries;
  }

  lemma {:induction false} AppendedOne(entries: seq<Entry>, e: Entry)
    ensures Appended(entries, [e]) == Kept(entries, e)
  {
    assert [e][..0] == [];
    assert Appended(entries, []) == entries;
  }

  lemma {:induction false} AppendedTwo(entries: seq<Entry>, e: Entry, f: Entry)
    ensures Appended(entries, [e, f]) == Kept(Kept(entries, e), f)
  {
    assert [e, f][..1] == [e];
    AppendedOne(entries, e);
  }

  ghost function Kept(entries: seq<Entry>, e: Entry): seq<Entry> {
    if HasId(entries, e.id) then entries else entries + [e]
  }

  lemma {:induction false} KeptCredit(entries: seq<Entry>, e: Entry, order: string)
    requires e.amount > 0
    ensures Earned(Kept(entries, e), order)
            == Earned(entries, order) + if !HasId(entries, e.id) && e.order == order then e.amount else 0
    ensures Reversed(Kept(entries, e), order) == Reversed(entries, order)
  {
    GrownByOne(entries, e, order, 0);
  }

  lemma {:induction false} GrownId(entries: seq<Entry>, e: Entry, id: Id)
    ensures HasId(entries + [e], id) <==> HasId(entries, id) || id == e.id
  {
    if HasId(entries, id) {
      var k :| 0 <= k < |entries| && entries[k].id == id;
      assert (entries + [e])[k].id == id;
    }
    assert (entries + [e])[|entries|] == e;
  }

  /** A batch leaves its own ids behind, and no others. */
  lemma {:induction false} AppendedIds(entries: seq<Entry>, batch: seq<Entry>, o: string, face: int, id: Id)
    requires IsBatchOf(o, face, batch)
    ensures HasId(Appended(entries, batch), id)
       <==> HasId(entries, id) || id == Derived(o, 1) || (|batch| == 2 && id == Derived(o, 2))
  {
    GrownId(entries, batch[0], id);
    if |batch| == 2 {
      AppendedTwo(entries, batch[0], batch[1]);
      GrownId(Kept(entries, batch[0]), batch[1], id);
      assert batch == [batch[0], batch[1]];
    } else {
      AppendedOne(entries, batch[0]);
      assert batch == [batch[0]];
    }
  }

  /** What a batch adds to an order: its entries whose ids were not there. */
  lemma {:induction false} AppendedBatch(entries: seq<Entry>, batch: seq<Entry>, o: string, face: int, order: string)
    requires IsBatchOf(o, face, batch)
    ensures var after := Appended(entries, batch);
            && Reversed(after, order) == Reversed(entries, order)
            && Earned(after, order) == Earned(entries, order)
               + (if o == order && !HasId(entries, Derived(o, 1)) then batch[0].amount else 0)
               + (if o == order && |batch| == 2 && !HasId(entries, Derived(o, 2)) then batch[1].amount else 0)
  {
    KeptCredit(entries, batch[0], order);
    if |batch| == 2 {
      AppendedTwo(entries, batch[0], batch[1]);
      GrownId(entries, batch[0], batch[1].id);
      KeptCredit(Kept(entries, batch[0]), batch[1], order);
      assert batch == [batch[0], batch[1]];
    } else {
      AppendedOne(entries, batch[0]);
      assert batch == [batch[0]];
    }
  }

  /** A sale written for the first time adds its face value; written again, nothing. */
  lemma {:induction false} AccruingKeepsOrder(book: Book, entries: seq<Entry>, d: Deal, settlesAt: int, order: string)
    requires d.face > 0 && d.face == book.face(d.order) && book.terms(d.order).Valid()
    requires AccruedWhole(book, entries, d.order) && AccruedWhole(book, entries, order)
    ensures var after := Appended(entries, Batch(d, book.terms(d.order), settlesAt));
            && AccruedWhole(book, after, order) && Reversed(after, order) == Reversed(entries, order)
            && Earned(after, order) >= Earned(entries, order)
  {
    var batch := Batch(d, book.terms(d.order), settlesAt);
    BatchIsTheFace(d, book.terms(d.order), settlesAt);
    AppendedBatch(entries, batch, d.order, d.face, order);
    AppendedIds(entries, batch, d.order, d.face, Derived(order, 1));
    AppendedIds(entries, batch, d.order, d.face, Derived(order, 2));
  }

  lemma {:induction false} AppendedFits(clock: int, next: nat, entries: seq<Entry>, batch: seq<Entry>)
    requires AllFit(clock, next, entries) && AllFit(clock, next, batch)
    ensures AllFit(clock, next, Appended(entries, batch))
  {
    if batch != [] {
      AppendedFits(clock, next, entries, batch[..|batch| - 1]);
      assert EntryFits(clock, next, batch[|batch| - 1]);
    }
  }

  lemma {:induction false} AccruingKeepsInv(book: Book, l: Ledger, d: Deal, settlesAt: int)
    requires Inv(book, l) && Refusal(d, book.terms(d.order)).None? && d.face == book.face(d.order)
    ensures Inv(book, After(l, AccrueSale(d, book.terms(d.order), settlesAt)))
  {
    var batch := Batch(d, book.terms(d.order), settlesAt);
    BatchIsTheFace(d, book.terms(d.order), settlesAt);
    assert AllFit(l.clock, l.next, batch);
    AppendedFits(l.clock, l.next, l.entries, batch);
    forall order | order != ""
      ensures AccruedWhole(book, Appended(l.entries, batch), order)
      ensures Reversed(Appended(l.entries, batch), order) <= Earned(Appended(l.entries, batch), order)
    {
      AccruingKeepsOrder(book, l.entries, d, settlesAt, order);
    }
  }

  lemma {:induction false} DebitKeepsInv(book: Book, l: Ledger, e: Entry)
    requires Inv(book, l) && e.amount < 0 && e.availableAt == l.clock && e.id == Random(l.next)
    requires e.order == "" || -e.amount <= Outstanding(l.entries, e.order)
    ensures Inv(book, l.(entries := l.entries + [e], next := l.next + 1))
  {
    var after := l.(entries := l.entries + [e], next := l.next + 1);
    forall k | 0 <= k < |after.entries|
      ensures EntryFits(after.clock, after.next, after.entries[k])
    {
      if k < |l.entries| {
        assert EntryFits(l.clock, l.next, l.entries[k]);
      }
    }
    forall order | order != ""
      ensures AccruedWhole(book, after.entries, order) && Reversed(after.entries, order) <= Earned(after.entries, order)
    {
      GrownByOne(l.entries, e, order, 0);
      GrownId(l.entries, e, Derived(order, 1));
      GrownId(l.entries, e, Derived(order, 2));
      assert AccruedWhole(book, l.entries, order);
    }
  }

  lemma {:induction false} StepKeepsInv(book: Book, l: Ledger, step: Step)
    requires Inv(book, l)
    requires step.AccrueSale? ==> step.deal.face == book.face(step.deal.order) && step.terms == book.terms(step.deal.order)
    ensures Inv(book, After(l, step))
  {
    match step {
      case AccrueSale(d, terms, settlesAt) =>
        if Refusal(d, terms).None? {
          AccruingKeepsInv(book, l, d, settlesAt);
        }
      case ReverseSale(order, organiser, event, kind, amount) =>
        if ReversalRefusal(order, organiser, event, kind, amount, Outstanding(l.entries, order)).None? {
          DebitKeepsInv(book, l, Reversal(l, order, organiser, event, kind, amount));
        }
      case PayOut(organiser, amount) =>
        if 0 < amount <= InPart(l.entries, organiser, Available, l.clock) {
          DebitKeepsInv(book, l, Entry(Random(l.next), organiser, "", "", Payout, -amount, l.clock));
        }
      case Wait(until) =>
        forall k | 0 <= k < |l.entries|
          ensures EntryFits(After(l, step).clock, l.next, l.entries[k])
        {
          assert EntryFits(l.clock, l.next, l.entries[k]);
        }
    }
  }

  lemma {:induction false} RunKeepsInv(book: Book, clock: int, steps: seq<Step>)
    requires ByTheBook(book, steps)
    ensures Inv(book, Run(Ledger([], 0, clock), steps))
  {
    if steps != [] {
      var n := |steps| - 1;
      assert ByTheBook(book, steps[..n]) by {
        assert forall k | 0 <= k < n :: steps[..n][k] == steps[k];
      }
      RunKeepsInv(book, clock, steps[..n]);
      StepKeepsInv(book, Run(Ledger([], 0, clock), steps[..n]), steps[n]);
    }
  }

  // --------------------------------------------------------------- theorems

  /** Over any run, replays included: an order accrues exactly its face value or nothing, and reversals never exceed it. */
  lemma {:induction false} EarnedIsTheFace(book: Book, clock: int, steps: seq<Step>, order: string)
    requires ByTheBook(book, steps) && order != ""
    ensures var entries := Run(Ledger([], 0, clock), steps).entries;
            && (Earned(entries, order) == 0 || Earned(entries, order) == book.face(order))
            && Reversed(entries, order) <= Earned(entries, order)
  {
    RunKeepsInv(book, clock, steps);
    assert AccruedWhole(book, Run(Ledger([], 0, clock), steps).entries, order);
  }

  /** Money that has gone is counted at once, so what is not counted yet is never a debit. */
  lemma {:induction false} NotYetIsNeverNegative(l: Ledger, n: nat, organiser: string, now: int)
    requires AllFit(l.clock, l.next, l.entries) && n <= |l.entries| && now >= l.clock
    ensures InPart(l.entries[..n], organiser, Pending, now) >= 0 && InPart(l.entries[..n], organiser, Held, now) >= 0
  {
    if n > 0 {
      assert l.entries[..n][..n - 1] == l.entries[..n - 1];
      NotYetIsNeverNegative(l, n - 1, organiser, now);
      assert EntryFits(l.clock, l.next, l.entries[n - 1]);
    }
  }

  /** From the present on, nobody can be paid more than their whole claim. */
  lemma {:induction false} AvailableIsWithinTheClaim(book: Book, clock: int, steps: seq<Step>, organiser: string, now: int)
    requires ByTheBook(book, steps) && now >= Run(Ledger([], 0, clock), steps).clock
    ensures var entries := Run(Ledger([], 0, clock), steps).entries;
            InPart(entries, organiser, Available, now) <= Claim(entries, organiser)
  {
    var l := Run(Ledger([], 0, clock), steps);
    RunKeepsInv(book, clock, steps);
    NotYetIsNeverNegative(l, |l.entries|, organiser, now);
    TakeAll(l.entries);
    PartsAreTheWhole(l.entries, organiser, now);
  }

  lemma {:induction false} ContributionIsWithin(l: Ledger, n: nat, order: string, now: int)
    requires AllFit(l.clock, l.next, l.entries) && n <= |l.entries| && now >= l.clock
    ensures Contribution(l.entries[..n], order, now) <= Outstanding(l.entries[..n], order)
  {
    if n > 0 {
      assert l.entries[..n][..n - 1] == l.entries[..n - 1];
      ContributionIsWithin(l, n - 1, order, now);
      assert EntryFits(l.clock, l.next, l.entries[n - 1]);
    }
  }

  /** At no later instant does an order add more to the available balance than it is still owed: once refunded, nothing. */
  lemma {:induction false} ARefundedOrderAddsNothing(book: Book, clock: int, steps: seq<Step>, order: string, now: int)
    requires ByTheBook(book, steps) && now >= Run(Ledger([], 0, clock), steps).clock
    ensures var entries := Run(Ledger([], 0, clock), steps).entries;
            && Contribution(entries, order, now) <= Outstanding(entries, order)
            && (Outstanding(entries, order) == 0 ==> Contribution(entries, order, now) <= 0)
  {
    var l := Run(Ledger([], 0, clock), steps);
    RunKeepsInv(book, clock, steps);
    ContributionIsWithin(l, |l.entries|, order, now);
    TakeAll(l.entries);
  }

  // ------------------------------------------------- what is held back, waits

  /** At `now` no hold on the order has ended; `settled` says whether any of its sales may have settled. */
  ghost predicate StillHeld(steps: seq<Step>, order: string, now: int, settled: bool) {
    forall k | 0 <= k < |steps| && steps[k].AccrueSale? && steps[k].deal.order == order ::
      now < steps[k].settlesAt + steps[k].terms.reserveHold && (now >= steps[k].settlesAt ==> settled)
  }

  /** The most an order may put in the available balance while its hold lasts. */
  ghost function Most(book: Book, entries: seq<Entry>, order: string, settled: bool): int {
    if settled && HasId(entries, Derived(order, 1)) then book.face(order) - book.terms(order).ReserveOn(book.face(order)) else 0
  }

  lemma {:induction false} KeptContribution(entries: seq<Entry>, e: Entry, order: string, now: int)
    ensures Contribution(Kept(entries, e), order, now)
            == Contribution(entries, order, now)
               + if !HasId(entries, e.id) && e.order == order && e.availableAt <= now then e.amount else 0
  {
    GrownByOne(entries, e, order, now);
  }

  /** What a batch adds to the balance at an instant. */
  lemma {:induction false} BatchContributes(entries: seq<Entry>, d: Deal, withheld: int, settlesAt: int, hold: int,
                                            batch: seq<Entry>, order: string, now: int)
    requires d.face > 0 && PaysAndHolds(batch, d, withheld, settlesAt, hold)
    ensures d.order != order ==> Contribution(Appended(entries, batch), order, now) == Contribution(entries, order, now)
    ensures now < settlesAt + hold ==>
              Contribution(Appended(entries, batch), order, now)
              == Contribution(entries, order, now)
                 + if d.order == order && !HasId(entries, Derived(order, 1)) && withheld != d.face && settlesAt <= now
                   then d.face - withheld else 0
  {
    KeptContribution(entries, batch[0], order, now);
    if |batch| == 2 {
      AppendedTwo(entries, batch[0], batch[1]);
      KeptContribution(Kept(entries, batch[0]), batch[1], order, now);
      assert batch == [batch[0], batch[1]];
    } else {
      AppendedOne(entries, batch[0]);
      assert batch == [batch[0]];
    }
  }

  lemma {:induction false} AccruingHolds(book: Book, entries: seq<Entry>, d: Deal, settlesAt: int, order: string, now: int,
                                         settled: bool)
    requires d.face > 0 && d.face == book.face(d.order) && book.terms(d.order).Valid()
    requires d.order == order ==> now < settlesAt + book.terms(order).reserveHold && (now >= settlesAt ==> settled)
    requires Contribution(entries, order, now) <= Most(book, entries, order, settled)
    ensures var after := Appended(entries, Batch(d, book.terms(d.order), settlesAt));
            Contribution(after, order, now) <= Most(book, after, order, settled)
  {
    var terms := book.terms(d.order);
    var batch := Batch(d, terms, settlesAt);
    BatchIsTheFace(d, terms, settlesAt);
    BatchPaysAndHolds(d, terms, settlesAt);
    ReserveIsASlice(terms, d.face);
    BatchContributes(entries, d, terms.ReserveOn(d.face), settlesAt, terms.reserveHold, batch, order, now);
    AppendedIds(entries, batch, d.order, d.face, Derived(order, 1));
  }

  lemma {:induction false} DebitHolds(book: Book, entries: seq<Entry>, e: Entry, order: string, now: int, settled: bool)
    requires e.amount < 0 && e.id.Random?
    requires Contribution(entries, order, now) <= Most(book, entries, order, settled)
    ensures Contribution(entries + [e], order, now) <= Most(book, entries + [e], order, settled)
  {
    GrownByOne(entries, e, order, now);
    GrownId(entries, e, Derived(order, 1));
  }

  /**
   Over any run, replays included, and at any instant before its hold ends, an order puts at most its face
   less its reserve in the available balance, and before it settles nothing.
   */
  lemma {:induction false} TheReserveIsHeld(book: Book, clock: int, steps: seq<Step>, order: string, now: int, settled: bool)
    requires ByTheBook(book, steps) && StillHeld(steps, order, now, settled)
    ensures var entries := Run(Ledger([], 0, clock), steps).entries;
            && Contribution(entries, order, now) <= Most(book, entries, order, settled)
            && (!settled ==> Contribution(entries, order, now) <= 0)
  {
    if steps != [] {
      var n := |steps| - 1;
      var l := Run(Ledger([], 0, clock), steps[..n]);
      ByTheBookBefore(book, steps, n);
      TheReserveIsHeld(book, clock, steps[..n], order, now, settled);
      HoldsOneMore(book, l, steps[n], order, now, settled);
    }
  }

  lemma {:induction false} HoldsOneMore(book: Book, l: Ledger, step: Step, order: string, now: int, settled: bool)
    requires step.AccrueSale? ==> step.deal.face == book.face(step.deal.order) && step.terms == book.terms(step.deal.order)
    requires step.AccrueSale? && step.deal.order == order ==>
               now < step.settlesAt + step.terms.reserveHold && (now >= step.settlesAt ==> settled)
    requires Contribution(l.entries, order, now) <= Most(book, l.entries, order, settled)
    ensures Contribution(After(l, step).entries, order, now) <= Most(book, After(l, step).entries, order, settled)
  {
    match step {
      case AccrueSale(d, terms, settlesAt) =>
        if Refusal(d, terms).None? {
          AccruingHolds(book, l.entries, d, settlesAt, order, now, settled);
        }
      case ReverseSale(o, organiser, event, kind, amount) =>
        if ReversalRefusal(o, organiser, event, kind, amount, Outstanding(l.entries, o)).None? {
          DebitHolds(book, l.entries, Reversal(l, o, organiser, event, kind, amount), order, now, settled);
        }
      case PayOut(organiser, amount) =>
        if 0 < amount <= InPart(l.entries, organiser, Available, l.clock) {
          DebitHolds(book, l.entries, Entry(Random(l.next), organiser, "", "", Payout, -amount, l.clock), order, now, settled);
        }
      case Wait(until) =>
    }
  }

  lemma {:induction false} SumsOnlyGrow(entries: seq<Entry>, n: nat, order: string)
    requires n <= |entries|
    ensures Earned(entries[..n], order) <= Earned(entries, order) && Reversed(entries[..n], order) <= Reversed(entries, order)
    decreases |entries|
  {
    if n < |entries| {
      var m := |entries| - 1;
      SumsOnlyGrow(entries[..m], n, order);
      assert entries[..m][..n] == entries[..n];
    } else {
      assert entries[..n] == entries;
    }
  }

  lemma {:induction false} AppendingKeeps(entries: seq<Entry>, batch: seq<Entry>)
    ensures entries <= Appended(entries, batch)
  {
    if batch != [] {
      AppendingKeeps(entries, batch[..|batch| - 1]);
    }
  }

  /** Nothing is ever taken off the ledger. */
  lemma {:induction false} StepAppends(l: Ledger, step: Step)
    ensures l.entries <= After(l, step).entries
  {
    if step.AccrueSale? {
      AppendingKeeps(l.entries, Batch(step.deal, step.terms, step.settlesAt));
    }
  }

  lemma {:induction false} ByTheBookBefore(book: Book, steps: seq<Step>, n: nat)
    requires ByTheBook(book, steps) && n <= |steps|
    ensures ByTheBook(book, steps[..n])
  {
  }

  /**
   Once all an order earned was taken back, it stays so over every further step, replayed accruals and
   repeated refunds included, and adds nothing to the available balance at any later instant.
   */
  lemma {:induction false} RefundedForGood(book: Book, clock: int, steps: seq<Step>, n: nat, order: string, now: int)
    requires ByTheBook(book, steps) && order != "" && n <= |steps|
    requires var then_ := Run(Ledger([], 0, clock), steps[..n]).entries;
             Earned(then_, order) > 0 && Outstanding(then_, order) == 0
    requires now >= Run(Ledger([], 0, clock), steps).clock
    ensures var entries := Run(Ledger([], 0, clock), steps).entries;
            && Earned(entries, order) > 0 && Outstanding(entries, order) == 0
            && Contribution(entries, order, now) <= 0
  {
    StaysRefunded(book, clock, steps, n, order);
    ARefundedOrderAddsNothing(book, clock, steps, order, now);
  }

  lemma {:induction false} OneMoreStep(book: Book, clock: int, steps: seq<Step>, order: string)
    requires ByTheBook(book, steps) && order != "" && steps != []
    requires var before := Run(Ledger([], 0, clock), steps[..|steps| - 1]).entries;
             Earned(before, order) > 0 && Outstanding(before, order) == 0
    ensures var entries := Run(Ledger([], 0, clock), steps).entries;
            Earned(entries, order) > 0 && Outstanding(entries, order) == 0
  {
    var before := Run(Ledger([], 0, clock), steps[..|steps| - 1]);
    ByTheBookBefore(book, steps, |steps| - 1);
    EarnedIsTheFace(book, clock, steps[..|steps| - 1], order);
    EarnedIsTheFace(book, clock, steps, order);
    StepSums(before, steps[|steps| - 1], order);
  }

  lemma {:induction false} StepSums(l: Ledger, step: Step, order: string)
    ensures Earned(l.entries, order) <= Earned(After(l, step).entries, order)
    ensures Reversed(l.entries, order) <= Reversed(After(l, step).entries, order)
  {
    StepAppends(l, step);
    SumsOnlyGrow(After(l, step).entries, |l.entries|, order);
    assert After(l, step).entries[..|l.entries|] == l.entries;
  }

  lemma {:induction false} StaysRefunded(book: Book, clock: int, steps: seq<Step>, n: nat, order: string)
    requires ByTheBook(book, steps) && order != "" && n <= |steps|
    requires var then_ := Run(Ledger([], 0, clock), steps[..n]).entries;
             Earned(then_, order) > 0 && Outstanding(then_, order) == 0
    ensures var entries := Run(Ledger([], 0, clock), steps).entries;
            Earned(entries, order) > 0 && Outstanding(entries, order) == 0
    decreases |steps|
  {
    if n < |steps| {
      var m := |steps| - 1;
      ByTheBookBefore(book, steps, m);
      assert steps[..m][..n] == steps[..n];
      StaysRefunded(book, clock, steps[..m], n, order);
      OneMoreStep(book, clock, steps, order);
    } else {
      assert steps[..n] == steps;
    }
  }

  /** A payout within what is available leaves the whole claim at least zero. */
  lemma {:induction false} APayoutKeepsTheClaim(book: Book, clock: int, steps: seq<Step>, organiser: string, amount: int)
    requires ByTheBook(book, steps)
    requires var l := Run(Ledger([], 0, clock), steps); 0 < amount <= InPart(l.entries, organiser, Available, l.clock)
    ensures Claim(After(Run(Ledger([], 0, clock), steps), PayOut(organiser, amount)).entries, organiser) >= 0
  {
    var l := Run(Ledger([], 0, clock), steps);
    AvailableIsWithinTheClaim(book, clock, steps, organiser, l.clock);
    var e := Entry(Random(l.next), organiser, "", "", Payout, -amount, l.clock);
    assert (l.entries + [e])[..|l.entries|] == l.entries;
  }

  /**
   Replaying an accrual under other terms adds to it exactly when the first split was one entry and
   the second is two: the ids then do not meet.
   */
  lemma {:induction false} ReplayUnderOtherTerms(d: Deal, first: Terms, second: Terms, settlesAt: int, later: int)
    requires Refusal(d, first).None? && Refusal(d, second).None?
    ensures var once := Appended([], Batch(d, first, settlesAt));
            var twice := Appended(once, Batch(d, second, later));
            && Earned(once, d.order) == d.face
            && (Earned(twice, d.order) > d.face
                <==> !(0 < first.ReserveOn(d.face) < d.face) && 0 < second.ReserveOn(d.face) < d.face)
            && (Earned(twice, d.order) == d.face || Earned(twice, d.order) == d.face + second.ReserveOn(d.face))
  {
    BatchIsTheFace(d, first, settlesAt);
    BatchIsTheFace(d, second, later);
    ReplayedBatch(d.order, d.face, Batch(d, first, settlesAt), Batch(d, second, later));
    if |Batch(d, second, later)| == 2 {
      SecondOfTwo(d, second, later);
    }
  }

  lemma {:induction false} SecondOfTwo(d: Deal, terms: Terms, settlesAt: int)
    requires d.face > 0 && terms.Valid() && |Batch(d, terms, settlesAt)| == 2
    ensures Batch(d, terms, settlesAt)[1].amount == terms.ReserveOn(d.face)
  {
  }

  lemma {:induction false} ReplayedBatch(o: string, face: int, first: seq<Entry>, second: seq<Entry>)
    requires IsBatchOf(o, face, first) && IsBatchOf(o, face, second)
    ensures var once := Appended([], first);
            && Earned(once, o) == face
            && Earned(Appended(once, second), o)
               == face + if |first| == 1 && |second| == 2 then second[1].amount else 0
  {
    AppendedBatch([], first, o, face, o);
    AppendedIds([], first, o, face, Derived(o, 1));
    AppendedIds([], first, o, face, Derived(o, 2));
    AppendedBatch(Appended([], first), second, o, face, o);
  }

  // -------------------------------------------------------------- the table

  /** The loop that sums a listing into a position, one organiser's rows at a time. */
  method BalanceOf(entries: seq<Entry>, organiser: string, now: int) returns (b: Balance)
    ensures b.available == InPart(entries, organiser, Available, now)
    ensures b.pending == InPart(entries, organiser, Pending, now)
    ensures b.reserved == InPart(entries, organiser, Held, now)
    ensures b.total == Claim(entries, organiser) == b.available + b.pending + b.reserved
  {
    b := Balance(0, 0, 0, 0);
    for k := 0 to |entries|
      invariant b.available == InPart(entries[..k], organiser, Available, now)
      invariant b.pending == InPart(entries[..k], organiser, Pending, now)
      invariant b.reserved == InPart(entries[..k], organiser, Held, now)
      invariant b.total == Claim(entries[..k], organiser)
    {
      assert entries[..k + 1][..k] == entries[..k];
      var e := entries[k];
      if e.organiser != organiser {
        continue;
      }
      b := b.(total := b.total + e.amount);
      if e.availableAt <= now {
        b := b.(available := b.available + e.amount);
      } else if e.kind.Withheld() {
        b := b.(reserved := b.reserved + e.amount);
      } else {
        b := b.(pending := b.pending + e.amount);
      }
    }
    TakeAll(entries);
    PartsAreTheWhole(entries, organiser, now);
  }

  class LedgerTable {
    var entries: seq<Entry>

    constructor ()
      ensures entries == []
    {
      entries := [];
    }

    /** One statement: rows whose id is taken are dropped, the rest are kept. */
    method Append(batch: seq<Entry>) returns (error: Option<LedgerError>)
      modifies this
      ensures error.None? <==> forall k | 0 <= k < |batch| :: Fault(batch[k]).None?
      ensures error.None? <==> forall k | 0 <= k < |batch| :: IsSound(batch[k])
      ensures entries == if error.None? then Appended(old(entries), batch) else old(entries)
    {
      for k := 0 to |batch|
        invariant forall j | 0 <= j < k :: Fault(batch[j]).None?
      {
        error := Fault(batch[k]);
        if error.Some? {
          return;
        }
      }
      for k := 0 to |batch|
        invariant entries == Appended(old(entries), batch[..k])
      {
        assert batch[..k + 1][..k] == batch[..k];
        var taken := Taken(batch[k].id);
        if !taken {
          entries := entries + [batch[k]];
        }
      }
      TakeAll(batch);
      return None;
    }

    method Taken(id: Id) returns (taken: bool)
      ensures taken == HasId(entries, id)
    {
      for k := 0 to |entries|
        invariant forall j | 0 <= j < k :: entries[j].id != id
      {
        if entries[k].id == id {
          return true;
        }
      }
      return false;
    }

    method AccruedOn(order: string) returns (earned: int, reversed: int)
      ensures earned == Earned(entries, order) && reversed == Reversed(entries, order)
    {
      earned, reversed := 0, 0;
      for k := 0 to |entries|
        invariant earned == Earned(entries[..k], order) && reversed == Reversed(entries[..k], order)
      {
        assert entries[..k + 1][..k] == entries[..k];
        if entries[k].order == order {
          if entries[k].amount > 0 {
            earned := earned + entries[k].amount;
          } else {
            reversed := reversed - entries[k].amount;
          }
        }
      }
      TakeAll(entries);
    }

    /** A refund or a chargeback takes back all an order is still owed, and nothing if that is nothing. */
    method ReverseAll(order: string, organiser: string, event: string, kind: Kind, now: int, next: nat)
      returns (error: Option<LedgerError>)
      modifies this
      ensures var outstanding := Outstanding(old(entries), order);
              && (outstanding <= 0 ==> error.None? && entries == old(entries))
              && (outstanding > 0 ==>
                    error == ReversalRefusal(order, organiser, event, kind, outstanding, outstanding)
                    && (error.Some? ==> entries == old(entries)))
              && (outstanding > 0 ==>
                    (error.None? <==> (kind.Refund? || kind.Chargeback?) && order != "" && event != "" && organiser != ""))
              && (outstanding > 0 && error.None? && !HasId(old(entries), Random(next)) ==>
                    && entries == old(entries) + [Entry(Random(next), organiser, event, order, kind, -outstanding, now)]
                    && Outstanding(entries, order) == 0)
    {
      var earned, reversed := AccruedOn(order);
      var outstanding := earned - reversed;
      if outstanding <= 0 {
        return None;
      }
      error := ReversalRefusal(order, organiser, event, kind, outstanding, outstanding);
      if error.Some? {
        return;
      }
      var entry := Entry(Random(next), organiser, event, order, kind, -outstanding, now);
      AppendedOne(entries, entry);
      GrownByOne(entries, entry, order, now);
      error := Append([entry]);
    }
  }
}
