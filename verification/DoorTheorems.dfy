/** The door: what admissions promise over every interleaving of scans, settlements and refunds. */
module DoorTheorems {
  import opened Results
  import opened Orders
  import opened Tickets
  import Basket
  import opened Sales
  import opened SalesInvariant
  import opened SalesSteps
  import opened SalesTheorems

  // ---------------------------------------------------------- what is minted

  lemma {:induction false} NumberedAt(line: Line, from: int, n: int, k: nat)
    requires k < n
    ensures Numbered(line, from, n)[k] == Credential(line.tier, from + k + 1, line.seat)
  {
    if k < n - 1 {
      NumberedAt(line, from, n - 1, k);
    }
  }

  /** One credential per ticket. */
  lemma {:induction false} MintedCounts(lines: seq<Line>)
    requires forall k | 0 <= k < |lines| :: lines[k].quantity >= 1
    ensures |Minted(lines)| == TicketsIn(lines)
  {
    if lines != [] {
      MintedCounts(lines[..|lines| - 1]);
    }
  }

  /** A tier's credentials are numbered from 1 to how many of it were bought. */
  lemma {:induction false} MintedNumbers(lines: seq<Line>, k: nat)
    requires forall j | 0 <= j < |lines| :: lines[j].quantity >= 1
    requires k < |Minted(lines)|
    ensures 1 <= Minted(lines)[k].sequence <= Demand(lines, Minted(lines)[k].tier)
  {
    var n := |lines| - 1;
    var before, last := lines[..n], lines[n];
    var m := |Minted(before)|;
    if k < m {
      MintedNumbers(before, k);
    } else {
      NumberedAt(last, Demand(before, last.tier), last.quantity, k - m);
      DemandIsNatural(before, last.tier);
    }
  }

  /** No two credentials of an order share a tier and a number, so the unique index never refuses them. */
  lemma {:induction false} MintedAreDistinct(lines: seq<Line>, j: nat, k: nat)
    requires forall i | 0 <= i < |lines| :: lines[i].quantity >= 1
    requires j < k < |Minted(lines)| && Minted(lines)[j].tier == Minted(lines)[k].tier
    ensures Minted(lines)[j].sequence < Minted(lines)[k].sequence
  {
    var n := |lines| - 1;
    var before, last := lines[..n], lines[n];
    var m := |Minted(before)|;
    if k < m {
      MintedAreDistinct(before, j, k);
    } else {
      NumberedAt(last, Demand(before, last.tier), last.quantity, k - m);
      if j < m {
        MintedNumbers(before, j);
      } else {
        NumberedAt(last, Demand(before, last.tier), last.quantity, j - m);
      }
    }
  }

  /** A credential is one of a line's: of its tier, and for its chair if it names one. */
  lemma {:induction false} MintedFromALine(lines: seq<Line>, k: nat) returns (j: nat)
    requires k < |Minted(lines)|
    ensures j < |lines| && lines[j].quantity >= 1
    ensures Minted(lines)[k].tier == lines[j].tier && Minted(lines)[k].seat == lines[j].seat
  {
    var n := |lines| - 1;
    var m := |Minted(lines[..n])|;
    if k < m {
      j := MintedFromALine(lines[..n], k);
    } else {
      j := n;
      NumberedAt(lines[n], Demand(lines[..n], lines[n].tier), lines[n].quantity, k - m);
    }
  }

  /** And every line that buys anything has one: no chair bought goes without its ticket. */
  lemma {:induction false} EveryLineIsMinted(lines: seq<Line>, j: nat) returns (k: nat)
    requires j < |lines| && lines[j].quantity >= 1
    ensures k < |Minted(lines)| && Minted(lines)[k].tier == lines[j].tier && Minted(lines)[k].seat == lines[j].seat
  {
    var n := |lines| - 1;
    if j < n {
      k := EveryLineIsMinted(lines[..n], j);
    } else {
      k := |Minted(lines[..n])|;
      NumberedAt(lines[n], Demand(lines[..n], lines[n].tier), lines[n].quantity, 0);
    }
  }

  // -------------------------------------------------------------- attendance

  /** How many of an order's tickets somebody came in on. */
  ghost function Attended(admissions: seq<Admission>, i: nat): nat {
    if admissions == [] then 0
    else
      var last := admissions[|admissions| - 1];
      Attended(admissions[..|admissions| - 1], i) + if last.order == i && last.admittedAt.Some? then 1 else 0
  }

  lemma {:induction false} AttendedIsGiven(admissions: seq<Admission>, i: nat)
    ensures Attended(admissions, i) <= |Given(admissions, i)|
  {
    if admissions != [] {
      AttendedIsGiven(admissions[..|admissions| - 1], i);
    }
  }

  lemma {:induction false} AttendedSame(a: seq<Admission>, b: seq<Admission>, i: nat)
    requires |a| == |b|
    requires forall k | 0 <= k < |a| :: a[k].order == b[k].order && a[k].admittedAt == b[k].admittedAt
    ensures Attended(a, i) == Attended(b, i)
  {
    if a != [] {
      AttendedSame(a[..|a| - 1], b[..|b| - 1], i);
    }
  }

  /** Unused tickets appended to a list attend nothing. */
  lemma {:induction false} AttendedOfUnused(a: seq<Admission>, b: seq<Admission>, i: nat)
    requires forall k | 0 <= k < |b| :: b[k].admittedAt.None?
    ensures Attended(a + b, i) == Attended(a, i)
    decreases |b|
  {
    if b == [] {
      assert a + b == a;
    } else {
      var n := |b| - 1;
      assert (a + b)[..|a + b| - 1] == a + b[..n];
      AttendedOfUnused(a, b[..n], i);
    }
  }

  lemma {:induction false} AttendedAtTheDoor(a: seq<Admission>, k: nat, now: int, i: nat)
    requires k < |a| && a[k].admittedAt.None?
    ensures Attended(a[k := a[k].AtTheDoor(now)], i) == Attended(a, i) + if a[k].order == i then 1 else 0
  {
    var n := |a| - 1;
    var b := a[k := a[k].AtTheDoor(now)];
    if k < n {
      AttendedAtTheDoor(a[..n], k, now, i);
      assert b[..n] == a[..n][k := a[k].AtTheDoor(now)];
    } else {
      assert b[..n] == a[..n];
    }
  }

  /** Whether the step is a scan that lets somebody in on order `i`. */
  ghost predicate LetsIn(o: Office, step: Step, i: nat) {
    step.Scan? && step.admission < |o.admissions|
    && o.admissions[step.admission].status.Issued? && o.admissions[step.admission].order == i
  }

  lemma {:induction false} TurningAttendsNothing(o: Office, j: nat, next: Status, now: int, i: nat)
    ensures Attended(Applied(o, j, next, now).admissions, i) == Attended(o.admissions, i)
  {
    if j < |o.orders| && Decision(o.orders[j].status, next) == Ok(true) {
      var lines := o.orders[j].lines;
      AttendedOfUnused(o.admissions, Fresh(j, Minted(lines)), i);
      AttendedSame(o.admissions, VoidedFor(o.admissions, j, now), i);
    }
  }

  lemma {:induction false} SweepingAttendsNothing(o: Office, picks: seq<nat>, now: int, i: nat)
    ensures Attended(Swept(o, picks, now).admissions, i) == Attended(o.admissions, i)
  {
    if picks != [] {
      SweepingAttendsNothing(o, picks[..|picks| - 1], now, i);
      TurningAttendsNothing(Swept(o, picks[..|picks| - 1], now), picks[|picks| - 1], Expired, now, i);
    }
  }

  lemma {:induction false} ScanningAttends(o: Office, a: nat, now: int, i: nat)
    requires Admitting(o)
    ensures Attended(Scanned(o, a, now).admissions, i) == Attended(o.admissions, i) + if LetsIn(o, Scan(a), i) then 1 else 0
  {
    if a < |o.admissions| && o.admissions[a].status.Issued? {
      assert AdmissionFits(o.orders, o.admissions[a]);
      AttendedAtTheDoor(o.admissions, a, now, i);
    }
  }

  /** Nothing but a settlement, a scan or a re-issue touches admissions. */
  lemma {:induction false} TheRestMintsNothing(o: Office, step: Step, now: int)
    requires !step.Cancel? && !step.Expire? && !step.Sweep? && !step.Settle? && !step.Scan? && !step.Reissue?
    ensures After(o, step, now).admissions == o.admissions
  {
  }

  lemma {:induction false} SettlingAttendsNothing(o: Office, j: nat, charge: ChargeStatus, now: int, i: nat)
    ensures Attended(Settled(o, j, charge, now).admissions, i) == Attended(o.admissions, i)
  {
    if j < |o.orders| && Verdict(o, o.orders[j], charge).Some? {
      TurningAttendsNothing(o, j, Verdict(o, o.orders[j], charge).value, now, i);
    }
  }

  lemma {:induction false} StepAttends(o: Office, step: Step, now: int, i: nat)
    requires Inv(o)
    ensures Attended(After(o, step, now).admissions, i) == Attended(o.admissions, i) + if LetsIn(o, step, i) then 1 else 0
  {
    match step {
      case Cancel(j) => TurningAttendsNothing(o, j, Cancelled, now, i);
      case Expire(j) => TurningAttendsNothing(o, j, Expired, now, i);
      case Sweep(picks) => SweepingAttendsNothing(o, picks, now, i);
      case Settle(j, charge) => SettlingAttendsNothing(o, j, charge, now, i);
      case Scan(a) => ScanningAttends(o, a, now, i);
      case Reissue(j) => ReissuingChangesNothing(o, j);
      case _ => TheRestMintsNothing(o, step, now);
    }
  }

  /** How many of the steps are scans that let somebody in on order `i`. */
  ghost function Entries(o: Office, steps: seq<(Step, int)>, i: nat): nat {
    if steps == [] then 0
    else
      Entries(o, steps[..|steps| - 1], i)
      + if LetsIn(Run(o, steps[..|steps| - 1]), steps[|steps| - 1].0, i) then 1 else 0
  }

  /** Attendance counts entries: it is never lowered by a refund, nor raised by anything but the door. */
  lemma {:induction false} AttendanceCountsEntries(o: Office, steps: seq<(Step, int)>, i: nat)
    requires Inv(o)
    ensures Attended(Run(o, steps).admissions, i) == Attended(o.admissions, i) + Entries(o, steps, i)
  {
    if steps != [] {
      var n := |steps| - 1;
      AttendanceCountsEntries(o, steps[..n], i);
      EveryRunKeepsInv(o, steps[..n]);
      StepAttends(Run(o, steps[..n]), steps[n].0, steps[n].1, i);
    }
  }

  /** An order that was ever paid has exactly one admission per ticket, and no more people come in on it. */
  lemma {:induction false} NoMoreEntriesThanTickets(o: Office, steps: seq<(Step, int)>, i: nat)
    requires Opening(o) && i < |Run(o, steps).orders|
    ensures var end := Run(o, steps);
            && |Given(end.admissions, i)| == (if end.orders[i].paidAt.Some? then TicketsIn(end.orders[i].lines) else 0)
            && Entries(o, steps, i) == Attended(end.admissions, i) <= |Given(end.admissions, i)|
  {
    OpeningIsValid(o);
    EveryRunKeepsInv(o, steps);
    var end := Run(o, steps);
    assert HasItsCredentials(end.admissions, i, end.orders[i]);
    QuantitiesOf(end, i);
    MintedCounts(end.orders[i].lines);
    AttendanceCountsEntries(o, steps, i);
    AttendedIsGiven(end.admissions, i);
  }

  /** Once an order is refunded nobody else comes in on it, whatever is scanned afterwards. */
  lemma {:induction false} NobodyEntersOnARefund(o: Office, steps: seq<(Step, int)>, i: nat)
    requires Inv(o) && i < |o.orders| && o.orders[i].status.Refunded?
    ensures Entries(o, steps, i) == 0
  {
    if steps != [] {
      var n := |steps| - 1;
      var before, step := Run(o, steps[..n]), steps[n].0;
      NobodyEntersOnARefund(o, steps[..n], i);
      EveryRunKeepsInv(o, steps[..n]);
      RefundsStay(o, steps[..n], i);
      RefundsAreTurnedAway(before, step, i);
    }
  }

  lemma {:induction false} RefundsStay(o: Office, steps: seq<(Step, int)>, i: nat)
    requires i < |o.orders| && o.orders[i].status.Refunded?
    ensures i < |Run(o, steps).orders| && Run(o, steps).orders[i].status.Refunded?
  {
    RunClimbs(o, steps, i);
    StillRefunded(o, Run(o, steps), i);
  }

  lemma {:induction false} StillRefunded(a: Office, b: Office, i: nat)
    requires i < |a.orders| && a.orders[i].status.Refunded? && Climbs(a, b, i)
    ensures i < |b.orders| && b.orders[i].status.Refunded?
  {
  }

  lemma {:induction false} RefundsAreTurnedAway(o: Office, step: Step, i: nat)
    requires Admitting(o) && i < |o.orders| && o.orders[i].status.Refunded?
    ensures !LetsIn(o, step, i)
  {
    if step.Scan? && step.admission < |o.admissions| {
      assert AdmissionFits(o.orders, o.admissions[step.admission]);
    }
  }
}
