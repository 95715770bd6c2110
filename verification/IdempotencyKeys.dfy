/**
 One idempotency key of one endpoint: the store (domain/idempotency/idempotency.go,
 infra/repositories/idempotency/idempotency_repository.go), the replay contract around it
 (delivery/http/httpx/idempotency.go) and the orders the requests leave behind
 (delivery/http/checkout/handler.go).

 A step is one SQL statement, so any number of requests race through `Begin` a statement at a time.
 They arrive at any time, crash at any point, take over claims whose lease lapsed and outlive their
 own. `byIndex` says whether the orders table refuses a second order under the key, which it does.
 */
module IdempotencyKeys {
  import opened Results

  /** What a request answers: which order, in which encoding. */
  datatype Response = Response(order: nat, version: nat)

  datatype State = Processing | Completed(response: Response)

  datatype Record = Record(hash: int, state: State, lease: Option<int>, expiresAt: int) {
    predicate Lapsed(now: int) { state.Processing? && (lease.None? || now >= lease.value) }
    predicate Expired(now: int) { now > expiresAt }
  }

  const TTL := 86_400_000_000_000
  const DEFAULT_LEASE := 60_000_000_000

  /** The statement of `Begin` a request comes to next. */
  datatype Place = Inserting | Reading | Reviving(seen: int) | Rereading | TakingOver | RereadingLast

  /** A request inside `Begin`. Its clock was read once, before the first statement. */
  datatype Contender = Contender(hash: int, now: int, lease: int, at: Place) {
    /** The row that its INSERT, or its revival of an expired row, writes. */
    function NewRow(): Record { Record(hash, Processing, Some(now + lease), now + TTL) }
    /** The condition of the UPDATE that takes over. */
    predicate MayTake(r: Record) { r.Lapsed(now) && r.hash == hash }
  }

  /** What `Begin` tells its caller. */
  datatype Answer = Mine(recovered: bool) | Replay(response: Response) | InFlight | Mismatch | Missing

  /** What a request that did not win is told of the row it read last. */
  function Verdict(row: Option<Record>, hash: int): Answer {
    if row.None? then Missing
    else if row.value.hash != hash then Mismatch
    else if row.value.state.Completed? then Replay(row.value.state.response)
    else InFlight
  }

  /** A claimant that took over looks for committed work first; one with its result has only to record it. */
  datatype Phase = Checking | Working | Holding(response: Response)

  datatype Attempt = Attempt(phase: Phase, leaseUntil: int, expiresAt: int)

  datatype Ledger = Ledger(
    row: Option<Record>,
    contenders: map<nat, Contender>,
    live: map<nat, Attempt>,
    /** The orders made under the key, each by the number of prunings before it. */
    orders: seq<nat>,
    clock: int, tick: nat, epoch: nat, life: nat,
    /** What each `Begin` answered, and the stored responses handed out, each with the life of the key it was in. */
    told: map<nat, Answer>,
    replays: seq<(nat, Response)>)

  datatype Step =
    | Arrive(hash: int, lease: int)
    | Execute(contender: nat)
    | Look(attempt: nat)
    | LookFails(attempt: nat)
    | Commit(attempt: nat)
    | Fail(attempt: nat)
    | Record_(attempt: nat)
    | Crash(attempt: nat)
    | Prune
    | Wait(until: int)

  /** `Release` deletes an unfinished claim, whoever's it is. */
  function Released(row: Option<Record>): Option<Record> {
    if row.Some? && row.value.state.Processing? then None else row
  }

  function Finished(row: Option<Record>, response: Response): Option<Record> {
    if row.Some? then Some(row.value.(state := Completed(response), lease := None)) else None
  }

  // --------------------------------------------------- the statements of Begin

  function Arrived(hash: int, lease: int, now: int): Contender {
    Contender(hash, now, if lease <= 0 then DEFAULT_LEASE else lease, Inserting)
  }

  /** Whether the statement a contender has come to gives it the key. */
  predicate StatementWins(row: Option<Record>, c: Contender) {
    match c.at
    case Inserting => row.None?
    case Reviving(seen) => row.Some? && row.value.expiresAt == seen
    case TakingOver => row.Some? && c.MayTake(row.value)
    case _ => false
  }

  /** What the statement leaves in the row. */
  function Written(row: Option<Record>, c: Contender): Option<Record> {
    if !StatementWins(row, c) then row
    else if c.at.TakingOver? then Some(row.value.(lease := Some(c.now + c.lease)))
    else Some(c.NewRow())
  }

  /** Where a contender that did not win with its statement goes, or that it is told what it read. */
  function Onward(row: Option<Record>, c: Contender): Option<Place> {
    match c.at
    case Inserting => Some(Reading)
    case Reading =>
      if row.Some? && row.value.Expired(c.now) then Some(Reviving(row.value.expiresAt))
      else if row.Some? && c.MayTake(row.value) then Some(TakingOver)
      else None
    case Reviving(_) => Some(Rereading)
    case Rereading => if row.Some? && c.MayTake(row.value) then Some(TakingOver) else None
    case TakingOver => Some(RereadingLast)
    case RereadingLast => None
  }

  /** One statement of contender `x`. */
  ghost function Executed(l: Ledger, x: nat): Ledger
    requires x in l.contenders
  {
    var c := l.contenders[x];
    var row := Written(l.row, c);
    if StatementWins(l.row, c) then
      l.(row := row,
         contenders := l.contenders - {x},
         live := l.live[x := Attempt(if c.at.Inserting? then Working else Checking, c.now + c.lease, row.value.expiresAt)],
         life := if c.at.TakingOver? then l.life else l.life + 1,
         told := l.told[x := Mine(!c.at.Inserting?)])
    else
      match Onward(l.row, c)
      case Some(place) => l.(contenders := l.contenders[x := c.(at := place)])
      case None =>
        var answer := Verdict(l.row, c.hash);
        l.(contenders := l.contenders - {x},
           told := l.told[x := answer],
           replays := if answer.Replay? then l.replays + [(l.life, answer.response)] else l.replays)
  }

  ghost function Phased(l: Ledger, x: nat, phase: Phase): map<nat, Attempt>
    requires x in l.live
  {
    l.live[x := l.live[x].(phase := phase)]
  }

  ghost function After(byIndex: bool, l: Ledger, step: Step): Ledger {
    var next := l.(tick := l.tick + 1);
    match step
    case Arrive(hash, lease) => next.(contenders := l.contenders[l.tick := Arrived(hash, lease, l.clock)])
    case Execute(x) => if x in l.contenders then Executed(l, x).(tick := l.tick + 1) else next
    case Look(x) =>
      if x in l.live && l.live[x].phase.Checking? then
        next.(live := Phased(l, x, if l.orders != [] then Holding(Response(0, l.tick)) else Working))
      else next
    case LookFails(x) =>
      if x in l.live && l.live[x].phase.Checking? then next.(row := Released(l.row), live := l.live - {x}) else next
    case Commit(x) =>
      if x in l.live && l.live[x].phase.Working? then
        if byIndex && l.orders != [] then next.(row := Released(l.row), live := l.live - {x})
        else next.(orders := l.orders + [l.epoch], live := Phased(l, x, Holding(Response(|l.orders|, l.tick))))
      else next
    case Fail(x) =>
      if x in l.live && l.live[x].phase.Working? then next.(row := Released(l.row), live := l.live - {x}) else next
    case Record_(x) =>
      if x in l.live && l.live[x].phase.Holding? then
        next.(row := Finished(l.row, l.live[x].phase.response), live := l.live - {x})
      else next
    case Crash(x) => next.(live := l.live - {x}, contenders := l.contenders - {x})
    case Prune =>
      if l.row.Some? && l.row.value.expiresAt < l.clock then next.(row := None, epoch := l.epoch + 1) else next
    case Wait(until) => if until >= l.clock then next.(clock := until) else next
  }

  ghost function Run(byIndex: bool, l: Ledger, steps: seq<Step>): Ledger {
    if steps == [] then l else After(byIndex, Run(byIndex, l, steps[..|steps| - 1]), steps[|steps| - 1])
  }

  const UNUSED := Ledger(None, map[], map[], [], 0, 0, 0, 0, map[], [])

  // --------------------------------------------------------- by the index

  lemma {:induction false} OneOrderByIndex(steps: seq<Step>)
    ensures |Run(true, UNUSED, steps).orders| <= 1
  {
    if steps != [] {
      OneOrderByIndex(steps[..|steps| - 1]);
    }
  }

  // --------------------------------------------------------- by the lease

  /** Every request in hand is within its lease and within the key's life. */
  ghost predicate Honest(l: Ledger) {
    forall x | x in l.live :: l.clock < l.live[x].leaseUntil && l.clock <= l.live[x].expiresAt
  }

  /** Every request ends inside its lease and its key's life, and every look finds what is there. */
  ghost predicate HonestRun(byIndex: bool, steps: seq<Step>) {
    steps == []
    || (&& HonestRun(byIndex, steps[..|steps| - 1])
        && Honest(Run(byIndex, UNUSED, steps))
        && !steps[|steps| - 1].LookFails?)
  }

  /** No two orders are made between two prunings of the key. */
  ghost predicate OneOrderAnEpoch(l: Ledger) {
    forall i, j | 0 <= i < j < |l.orders| :: l.orders[i] != l.orders[j]
  }

  /** All the replays of one life of the key hand out one response. */
  ghost predicate OneResponseALife(l: Ledger) {
    forall i, j | 0 <= i < |l.replays| && 0 <= j < |l.replays| && l.replays[i].0 == l.replays[j].0 ::
      l.replays[i].1 == l.replays[j].1
  }

  ghost predicate MadeThisEpoch(l: Ledger) { l.orders != [] && l.orders[|l.orders| - 1] == l.epoch }

  ghost predicate Owns(l: Ledger, x: nat)
    requires x in l.live
  {
    && x < l.tick
    && l.row.Some? && l.row.value.state.Processing?
    && l.row.value.lease == Some(l.live[x].leaseUntil) && l.row.value.expiresAt == l.live[x].expiresAt
    && (MadeThisEpoch(l) ==> !l.live[x].phase.Working?)
  }

  /** A contender's clock is not ahead, and the row it means to revive was expired by it. */
  ghost predicate ContenderFits(clock: int, tick: nat, x: nat, c: Contender) {
    x < tick && c.now <= clock && c.lease > 0 && (c.at.Reviving? ==> c.at.seen < c.now)
  }

  ghost predicate Contending(l: Ledger) {
    forall x | x in l.contenders :: ContenderFits(l.clock, l.tick, x, l.contenders[x])
  }

  ghost predicate Recorded(l: Ledger) {
    && (forall i | 0 <= i < |l.replays| ::
          && l.replays[i].0 <= l.life
          && (l.replays[i].0 == l.life ==> l.row.None? || l.row.value.state == Completed(l.replays[i].1)))
    && OneResponseALife(l)
  }

  ghost predicate Ordered(l: Ledger) {
    && (forall i | 0 <= i < |l.orders| :: l.orders[i] <= l.epoch)
    && (forall i, j | 0 <= i < j < |l.orders| :: l.orders[i] < l.orders[j])
    && (MadeThisEpoch(l) ==> l.row.Some?)
  }

  ghost predicate Inv(l: Ledger) {
    && (forall x, y | x in l.live && y in l.live :: x == y)
    && (forall x | x in l.live :: Owns(l, x))
    && Contending(l) && Ordered(l) && Recorded(l)
  }

  lemma {:induction false} StepKeepsContending(byIndex: bool, l: Ledger, step: Step)
    requires Contending(l)
    ensures Contending(After(byIndex, l, step))
  {
    var next := After(byIndex, l, step);
    forall x | x in next.contenders
      ensures ContenderFits(next.clock, next.tick, x, next.contenders[x])
    {
      if x in l.contenders {
        assert ContenderFits(l.clock, l.tick, x, l.contenders[x]);
      }
    }
  }

  /** While a request in hand is within its time, no statement of anybody else's wins its key. */
  lemma {:induction false} NobodyElseWins(l: Ledger, x: nat, y: nat)
    requires Inv(l) && Honest(l) && x in l.live && y in l.contenders
    ensures !StatementWins(l.row, l.contenders[y])
  {
    assert Owns(l, x);
    assert ContenderFits(l.clock, l.tick, y, l.contenders[y]);
  }

  lemma {:induction false} WinningKeepsInv(l: Ledger, x: nat)
    requires Inv(l) && x in l.contenders && l.live == map[] && StatementWins(l.row, l.contenders[x])
    ensures Inv(Executed(l, x).(tick := l.tick + 1))
  {
    var next := Executed(l, x).(tick := l.tick + 1);
    assert ContenderFits(l.clock, l.tick, x, l.contenders[x]);
    forall y | y in next.contenders
      ensures ContenderFits(next.clock, next.tick, y, next.contenders[y])
    {
      assert ContenderFits(l.clock, l.tick, y, l.contenders[y]);
    }
    assert next.live.Keys == {x};
    assert Owns(next, x);
  }

  lemma {:induction false} LosingKeepsInv(l: Ledger, x: nat)
    requires Inv(l) && x in l.contenders && !StatementWins(l.row, l.contenders[x])
    ensures Inv(Executed(l, x).(tick := l.tick + 1))
  {
    var next := Executed(l, x).(tick := l.tick + 1);
    assert ContenderFits(l.clock, l.tick, x, l.contenders[x]);
    forall y | y in next.contenders
      ensures ContenderFits(next.clock, next.tick, y, next.contenders[y])
    {
      assert ContenderFits(l.clock, l.tick, y, l.contenders[y]);
    }
    forall y | y in next.live
      ensures Owns(next, y)
    {
      assert Owns(l, y);
    }
  }

  lemma {:induction false} ExecutingKeepsInv(l: Ledger, x: nat)
    requires Inv(l) && Honest(l) && x in l.contenders
    ensures Inv(Executed(l, x).(tick := l.tick + 1))
  {
    if StatementWins(l.row, l.contenders[x]) {
      if y :| y in l.live {
        NobodyElseWins(l, y, x);
      } else {
        assert l.live == map[];
        WinningKeepsInv(l, x);
      }
    } else {
      LosingKeepsInv(l, x);
    }
  }

  lemma {:induction false} CommitKeepsInv(byIndex: bool, l: Ledger, x: nat)
    requires Inv(l) && Honest(l) && x in l.live && l.live[x].phase.Working?
    ensures Inv(After(byIndex, l, Commit(x)))
  {
    var next := After(byIndex, l, Commit(x));
    StepKeepsContending(byIndex, l, Commit(x));
    assert Owns(l, x);
    forall y | y in next.live
      ensures Owns(next, y)
    {
      assert Owns(l, y);
    }
  }

  lemma {:induction false} LookKeepsInv(byIndex: bool, l: Ledger, x: nat)
    requires Inv(l) && Honest(l)
    ensures Inv(After(byIndex, l, Look(x)))
  {
    var next := After(byIndex, l, Look(x));
    StepKeepsContending(byIndex, l, Look(x));
    forall y | y in next.live
      ensures Owns(next, y)
    {
      assert Owns(l, y);
    }
  }

  lemma {:induction false} FailKeepsInv(byIndex: bool, l: Ledger, x: nat)
    requires Inv(l) && Honest(l)
    ensures Inv(After(byIndex, l, Fail(x)))
  {
    var next := After(byIndex, l, Fail(x));
    StepKeepsContending(byIndex, l, Fail(x));
    forall y | y in next.live
      ensures Owns(next, y)
    {
      assert Owns(l, y);
    }
    if x in l.live {
      assert Owns(l, x);
    }
  }

  lemma {:induction false} RecordKeepsInv(byIndex: bool, l: Ledger, x: nat)
    requires Inv(l) && Honest(l)
    ensures Inv(After(byIndex, l, Record_(x)))
  {
    var next := After(byIndex, l, Record_(x));
    StepKeepsContending(byIndex, l, Record_(x));
    forall y | y in next.live
      ensures Owns(next, y)
    {
      assert Owns(l, y);
    }
    if x in l.live {
      assert Owns(l, x);
    }
  }

  lemma {:induction false} CrashKeepsInv(byIndex: bool, l: Ledger, x: nat)
    requires Inv(l) && Honest(l)
    ensures Inv(After(byIndex, l, Crash(x)))
  {
    var next := After(byIndex, l, Crash(x));
    StepKeepsContending(byIndex, l, Crash(x));
    forall y | y in next.live
      ensures Owns(next, y)
    {
      assert Owns(l, y);
    }
  }

  lemma {:induction false} PruneKeepsInv(byIndex: bool, l: Ledger)
    requires Inv(l) && Honest(l)
    ensures Inv(After(byIndex, l, Prune))
  {
    var next := After(byIndex, l, Prune);
    StepKeepsContending(byIndex, l, Prune);
    forall y | y in next.live
      ensures Owns(next, y)
    {
      assert Owns(l, y);
    }
  }

  /** A step that leaves the row, the requests in hand and what was made and told as they are. */
  lemma {:induction false} QuietKeepsInv(byIndex: bool, l: Ledger, step: Step)
    requires Inv(l)
    requires var next := After(byIndex, l, step);
             && next.row == l.row && next.live == l.live && next.orders == l.orders && next.epoch == l.epoch
             && next.replays == l.replays && next.life == l.life
    ensures Inv(After(byIndex, l, step))
  {
    var next := After(byIndex, l, step);
    StepKeepsContending(byIndex, l, step);
    assert next.tick == l.tick + 1;
    forall y | y in next.live
      ensures Owns(next, y)
    {
      assert Owns(l, y);
    }
  }

  lemma {:induction false} StepKeepsInv(byIndex: bool, l: Ledger, step: Step)
    requires Inv(l) && Honest(l) && !step.LookFails?
    ensures Inv(After(byIndex, l, step))
  {
    match step {
      case Execute(x) =>
        if x in l.contenders {
          ExecutingKeepsInv(l, x);
        } else {
          QuietKeepsInv(byIndex, l, step);
        }
      case Commit(x) =>
        if x in l.live && l.live[x].phase.Working? {
          CommitKeepsInv(byIndex, l, x);
        } else {
          QuietKeepsInv(byIndex, l, step);
        }
      case Arrive(_, _) => QuietKeepsInv(byIndex, l, step);
      case Wait(_) => QuietKeepsInv(byIndex, l, step);
      case Prune => PruneKeepsInv(byIndex, l);
      case Look(x) => LookKeepsInv(byIndex, l, x);
      case Fail(x) => FailKeepsInv(byIndex, l, x);
      case Record_(x) => RecordKeepsInv(byIndex, l, x);
      case Crash(x) => CrashKeepsInv(byIndex, l, x);
    }
  }

  lemma {:induction false} HonestRunKeepsInv(byIndex: bool, steps: seq<Step>)
    requires HonestRun(byIndex, steps)
    ensures Inv(Run(byIndex, UNUSED, steps)) && Honest(Run(byIndex, UNUSED, steps))
  {
    if steps != [] {
      var n := |steps| - 1;
      HonestRunKeepsInv(byIndex, steps[..n]);
      StepKeepsInv(byIndex, Run(byIndex, UNUSED, steps[..n]), steps[n]);
    }
  }

  /**
   With or without the index, and however their statements interleave, requests that end in time make
   one order per key between prunings of the table, and every replay in one life of the key returns
   the same stored response.
   */
  lemma {:induction false} OneOrderByLease(byIndex: bool, steps: seq<Step>)
    requires HonestRun(byIndex, steps)
    ensures OneOrderAnEpoch(Run(byIndex, UNUSED, steps)) && OneResponseALife(Run(byIndex, UNUSED, steps))
  {
    HonestRunKeepsInv(byIndex, steps);
  }

  /**
   With the index too, a request that ends in time is refused for an order that exists only after
   its key was pruned: until then a retry finds that order and replays it.
   */
  lemma {:induction false} CollisionsNeedAPruning(steps: seq<Step>, x: nat)
    requires HonestRun(true, steps)
    requires x in Run(true, UNUSED, steps).live && Run(true, UNUSED, steps).live[x].phase.Working?
    ensures var l := Run(true, UNUSED, steps);
            l.orders != [] ==> l.orders[0] < l.epoch
  {
    HonestRunKeepsInv(true, steps);
    OneOrderByIndex(steps);
    assert Owns(Run(true, UNUSED, steps), x);
  }
}
