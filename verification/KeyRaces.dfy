/**
 Requests racing through `Begin` a statement at a time: what one does alone, how many can win, what
 the others are told, and the runs on which the lease alone is not enough.
 (infra/repositories/idempotency/idempotency_repository.go)
 */
module KeyRaces {
  import opened Results
  import opened IdempotencyKeys

  lemma {:induction false} Grown(byIndex: bool, l: Ledger, steps: seq<Step>, step: Step)
    ensures Run(byIndex, l, steps + [step]) == After(byIndex, Run(byIndex, l, steps), step)
  {
    assert (steps + [step])[..|steps|] == steps;
  }

  // ------------------------------------------------------------ undisturbed

  /** What `Begin` comes to when nobody comes between its statements. */
  function Outcome(row: Option<Record>, hash: int, now: int): Answer {
    if row.None? then Mine(false)
    else if row.value.Expired(now) || (row.value.Lapsed(now) && row.value.hash == hash) then Mine(true)
    else Verdict(row, hash)
  }

  function Begun(row: Option<Record>, c: Contender): Option<Record> {
    if row.None? || row.value.Expired(c.now) then Some(c.NewRow())
    else if c.MayTake(row.value) then Some(row.value.(lease := Some(c.now + c.lease)))
    else row
  }

  /** The request in hand after winning. */
  function Winner(row: Option<Record>, c: Contender): Attempt {
    Attempt(if row.None? then Working else Checking, c.now + c.lease,
            if row.Some? && !row.value.Expired(c.now) then row.value.expiresAt else c.now + TTL)
  }

  ghost predicate Answered(l: Ledger, end: Ledger, x: nat, c: Contender) {
    && end.told == l.told[x := Outcome(l.row, c.hash, c.now)]
    && end.row == Begun(l.row, c)
    && end.contenders == l.contenders && end.orders == l.orders && end.clock == l.clock && end.epoch == l.epoch
    && end.live == (if Outcome(l.row, c.hash, c.now).Mine? then l.live[x := Winner(l.row, c)] else l.live)
    && end.tick > x
    && end.replays == l.replays + (if Outcome(l.row, c.hash, c.now).Replay?
                                   then [(l.life, Outcome(l.row, c.hash, c.now).response)] else [])
  }

  /** Only contender `x` has moved since `l`, and it has come to `c`. */
  ghost predicate Midway(l: Ledger, mid: Ledger, x: nat, c: Contender) {
    mid == l.(contenders := l.contenders[x := c], tick := mid.tick) && mid.tick > x
  }

  /** The contender's statement moves it on. */
  lemma {:induction false} Moves(byIndex: bool, l: Ledger, steps: seq<Step>, x: nat, c: Contender)
    requires Midway(l, Run(byIndex, UNUSED, steps), x, c)
    requires !StatementWins(l.row, c) && Onward(l.row, c).Some?
    ensures Midway(l, Run(byIndex, UNUSED, steps + [Execute(x)]), x, c.(at := Onward(l.row, c).value))
  {
    Grown(byIndex, UNUSED, steps, Execute(x));
    assert l.contenders[x := c][x := c.(at := Onward(l.row, c).value)] == l.contenders[x := c.(at := Onward(l.row, c).value)];
  }

  /** The contender's statement ends its `Begin`, won or answered, as it would alone. */
  lemma {:induction false} Ends(byIndex: bool, l: Ledger, steps: seq<Step>, x: nat, c: Contender)
    requires x !in l.contenders && Midway(l, Run(byIndex, UNUSED, steps), x, c)
    requires StatementWins(l.row, c) || Onward(l.row, c).None?
    requires c.at.Inserting? ==> l.row.None?
    requires c.at.Reviving? ==> l.row.Some? && l.row.value.Expired(c.now)
    requires c.at.TakingOver? ==> l.row.Some? && !l.row.value.Expired(c.now)
    requires c.at.Reading? ==> l.row.Some?
    requires !c.at.Rereading? && !c.at.RereadingLast?
    ensures Answered(l, Run(byIndex, UNUSED, steps + [Execute(x)]), x, c)
  {
    Grown(byIndex, UNUSED, steps, Execute(x));
    assert l.contenders[x := c] - {x} == l.contenders;
    assert l.replays + [] == l.replays;
  }

  lemma {:induction false} Enters(byIndex: bool, before: seq<Step>, hash: int, lease: int)
    ensures var l := Run(byIndex, UNUSED, before);
            Midway(l, Run(byIndex, UNUSED, before + [Arrive(hash, lease)]), l.tick, Arrived(hash, lease, l.clock))
  {
    Grown(byIndex, UNUSED, before, Arrive(hash, lease));
  }

  /** The statements a contender needs when nobody else comes. */
  function Needed(row: Option<Record>, c: Contender): nat {
    if row.None? then 1 else if Onward(row, c.(at := Reading)).None? then 2 else 3
  }

  ghost function Alone(x: nat, n: nat): seq<Step> {
    if n == 0 then [] else Alone(x, n - 1) + [Execute(x)]
  }

  /**
   With nobody coming between its statements, `Begin` is the one atomic decision: new, revived, taken
   over, or told of the row that is there. Interleaving is all that the statements add.
   */
  lemma {:induction false} UndisturbedBeginIsAtomic(byIndex: bool, before: seq<Step>, hash: int, lease: int)
    requires Run(byIndex, UNUSED, before).tick !in Run(byIndex, UNUSED, before).contenders
    ensures var l := Run(byIndex, UNUSED, before);
            var c := Arrived(hash, lease, l.clock);
            Answered(l, Run(byIndex, UNUSED, before + [Arrive(hash, lease)] + Alone(l.tick, Needed(l.row, c))), l.tick, c)
  {
    var l := Run(byIndex, UNUSED, before);
    Enters(byIndex, before, hash, lease);
    AloneIsAtomic(byIndex, l, before + [Arrive(hash, lease)], l.tick, Arrived(hash, lease, l.clock));
  }

  lemma {:induction false} AloneIsAtomic(byIndex: bool, l: Ledger, steps: seq<Step>, x: nat, c: Contender)
    requires x !in l.contenders && c.at.Inserting? && Midway(l, Run(byIndex, UNUSED, steps), x, c)
    ensures Answered(l, Run(byIndex, UNUSED, steps + Alone(x, Needed(l.row, c))), x, c)
  {
    AloneIs(x);
    if l.row.None? {
      Ends(byIndex, l, steps, x, c);
    } else {
      Moves(byIndex, l, steps, x, c);
      ReadsAlone(byIndex, l, steps + [Execute(x)], x, c.(at := Reading));
      assert steps + [Execute(x)] + [Execute(x)] == steps + [Execute(x), Execute(x)];
      assert steps + [Execute(x)] + [Execute(x), Execute(x)] == steps + [Execute(x), Execute(x), Execute(x)];
    }
  }

  lemma {:induction false} AloneIs(x: nat)
    ensures Alone(x, 1) == [Execute(x)] && Alone(x, 2) == [Execute(x), Execute(x)]
    ensures Alone(x, 3) == [Execute(x), Execute(x), Execute(x)]
  {
    assert Alone(x, 0) == [];
    assert Alone(x, 1) == [Execute(x)];
  }

  lemma {:induction false} ReadsAlone(byIndex: bool, l: Ledger, steps: seq<Step>, x: nat, c: Contender)
    requires x !in l.contenders && c.at.Reading? && l.row.Some? && Midway(l, Run(byIndex, UNUSED, steps), x, c)
    ensures Onward(l.row, c).None? ==> Answered(l, Run(byIndex, UNUSED, steps + [Execute(x)]), x, c.(at := Inserting))
    ensures Onward(l.row, c).Some? ==>
              Answered(l, Run(byIndex, UNUSED, steps + [Execute(x), Execute(x)]), x, c.(at := Inserting))
  {
    if Onward(l.row, c).None? {
      Ends(byIndex, l, steps, x, c);
    } else {
      WritesAlone(byIndex, l, steps, x, c);
    }
  }

  lemma {:induction false} WritesAlone(byIndex: bool, l: Ledger, steps: seq<Step>, x: nat, c: Contender)
    requires x !in l.contenders && c.at.Reading? && l.row.Some? && Midway(l, Run(byIndex, UNUSED, steps), x, c)
    requires Onward(l.row, c).Some?
    ensures Answered(l, Run(byIndex, UNUSED, steps + [Execute(x), Execute(x)]), x, c.(at := Inserting))
  {
    Moves(byIndex, l, steps, x, c);
    Ends(byIndex, l, steps + [Execute(x)], x, c.(at := Onward(l.row, c).value));
    assert steps + [Execute(x)] + [Execute(x)] == steps + [Execute(x), Execute(x)];
  }

  // ------------------------------------------------------------------ racers

  /** A step that deletes the row: a release, or the pruning of an expired one. */
  ghost predicate Deletes(byIndex: bool, l: Ledger, step: Step) {
    l.row.Some? && After(byIndex, l, step).row.None?
  }

  ghost predicate Wins(l: Ledger, step: Step) {
    step.Execute? && step.contender in l.contenders && StatementWins(l.row, l.contenders[step.contender])
  }

  /** No statement by a request whose clock read less than `m` wins this row. */
  ghost predicate Shut(row: Option<Record>, m: int) {
    && row.Some? && row.value.expiresAt + 1 >= m
    && (row.value.state.Processing? ==> row.value.lease.Some? && row.value.lease.value >= m)
  }

  /** A row that is shut stays so unless it is deleted, and is won only by a later clock. */
  lemma {:induction false} ShutStaysShut(byIndex: bool, l: Ledger, step: Step, m: int)
    requires Contending(l) && Shut(l.row, m) && !Deletes(byIndex, l, step)
    ensures Shut(After(byIndex, l, step).row, m)
    ensures Wins(l, step) ==> l.contenders[step.contender].now >= m
  {
    match step {
      case Execute(x) =>
        if x in l.contenders {
          assert ContenderFits(l.clock, l.tick, x, l.contenders[x]);
        }
      case _ =>
    }
  }

  ghost predicate NoDeletion(byIndex: bool, l: Ledger, steps: seq<Step>) {
    forall k | 0 <= k < |steps| :: !Deletes(byIndex, Run(byIndex, l, steps[..k]), steps[k])
  }

  /** The instant until which a winner's claim stands by itself: its lease, or the end of the key's life. */
  function StandsUntil(row: Record): int {
    if row.lease.Some? && row.lease.value <= row.expiresAt then row.lease.value else row.expiresAt + 1
  }

  lemma {:induction false} ShutThroughout(byIndex: bool, l: Ledger, steps: seq<Step>, m: int)
    requires Contending(l) && Shut(l.row, m) && NoDeletion(byIndex, l, steps)
    ensures Contending(Run(byIndex, l, steps)) && Shut(Run(byIndex, l, steps).row, m)
  {
    if steps != [] {
      var n := |steps| - 1;
      NoDeletionBefore(byIndex, l, steps, n);
      ShutThroughout(byIndex, l, steps[..n], m);
      StepKeepsContending(byIndex, Run(byIndex, l, steps[..n]), steps[n]);
      ShutStaysShut(byIndex, Run(byIndex, l, steps[..n]), steps[n], m);
    }
  }

  lemma {:induction false} NoDeletionBefore(byIndex: bool, l: Ledger, steps: seq<Step>, n: nat)
    requires NoDeletion(byIndex, l, steps) && n < |steps|
    ensures NoDeletion(byIndex, l, steps[..n]) && !Deletes(byIndex, Run(byIndex, l, steps[..n]), steps[n])
  {
    forall k | 0 <= k < n
      ensures !Deletes(byIndex, Run(byIndex, l, steps[..n][..k]), steps[..n][k])
    {
      assert steps[..n][..k] == steps[..k];
    }
  }

  /**
   Whoever wins the key, nobody whose clock read earlier than the end of that claim wins it too, by any
   interleaving of any statements, unless the row was deleted in between.
   */
  lemma {:induction false} ALaterWinnerIsALeaseLater(byIndex: bool, l: Ledger, first: Step, steps: seq<Step>, k: nat)
    requires Contending(l) && Wins(l, first)
    requires NoDeletion(byIndex, After(byIndex, l, first), steps)
    requires k < |steps| && Wins(Run(byIndex, After(byIndex, l, first), steps[..k]), steps[k])
    ensures var claimed := After(byIndex, l, first);
            && claimed.row.Some?
            && Run(byIndex, claimed, steps[..k]).contenders[steps[k].contender].now >= StandsUntil(claimed.row.value)
  {
    var claimed := After(byIndex, l, first);
    var m := StandsUntil(claimed.row.value);
    StepKeepsContending(byIndex, l, first);
    NoDeletionBefore(byIndex, claimed, steps, k);
    ShutThroughout(byIndex, claimed, steps[..k], m);
    ShutStaysShut(byIndex, Run(byIndex, claimed, steps[..k]), steps[k], m);
  }

  /** Requests that read their clocks from `a` on and before `m`, with leases and lives that last till `m`. */
  ghost predicate Together(l: Ledger, a: int, m: int) {
    forall x | x in l.contenders ::
      && a <= l.contenders[x].now < m <= l.contenders[x].now + l.contenders[x].lease
      && m <= l.contenders[x].now + TTL + 1
  }

  ghost function Winners(byIndex: bool, l: Ledger, steps: seq<Step>): nat {
    if steps == [] then 0
    else
      var n := |steps| - 1;
      Winners(byIndex, l, steps[..n]) + if Wins(Run(byIndex, l, steps[..n]), steps[n]) then 1 else 0
  }

  /** Before anybody has won: `e` is when the unclaimed row's life ends. */
  ghost predicate Unclaimed(l: Ledger, e: Option<int>) {
    && (if e.None? then l.row.None? else l.row.Some? && l.row.value.expiresAt == e.value)
    && forall x | x in l.contenders :: Placed(l.contenders[x], e)
  }

  ghost predicate Placed(c: Contender, e: Option<int>) {
    match c.at
    case Inserting => true
    case Reading => true
    case Reviving(seen) => e == Some(seen)
    case Rereading => false
    case TakingOver => e.Some? && c.now <= e.value
    case RereadingLast => e.Some? && c.now <= e.value
  }

  lemma {:induction false} PlacedMoves(row: Option<Record>, c: Contender, e: Option<int>)
    requires Placed(c, e) && (if e.None? then row.None? else row.Some? && row.value.expiresAt == e.value)
    requires !StatementWins(row, c) && Onward(row, c).Some?
    ensures Placed(c.(at := Onward(row, c).value), e)
  {
  }

  lemma {:induction false} WinningShuts(row: Option<Record>, c: Contender, a: int, m: int, e: Option<int>)
    requires Placed(c, e) && (if e.None? then row.None? else row.Some? && row.value.expiresAt == e.value)
    requires StatementWins(row, c) && a <= c.now < m <= c.now + c.lease && m <= c.now + TTL + 1
    requires e.Some? ==> e.value < a || e.value + 1 >= m
    ensures Shut(Written(row, c), m)
  {
  }

  lemma {:induction false} RaceStep(byIndex: bool, l: Ledger, step: Step, a: int, m: int, e: Option<int>)
    requires Together(l, a, m) && Unclaimed(l, e) && (e.Some? ==> e.value < a || e.value + 1 >= m)
    requires !Deletes(byIndex, l, step) && !step.Arrive?
    ensures if Wins(l, step) then Shut(After(byIndex, l, step).row, m) else Unclaimed(After(byIndex, l, step), e)
  {
    if step.Execute? {
      if step.contender in l.contenders {
        RacerExecutes(l, step.contender, a, m, e);
      }
    } else {
      OthersLeaveItUnclaimed(byIndex, l, step, e);
    }
  }

  lemma {:induction false} RacerExecutes(l: Ledger, x: nat, a: int, m: int, e: Option<int>)
    requires x in l.contenders
    requires Together(l, a, m) && Unclaimed(l, e) && (e.Some? ==> e.value < a || e.value + 1 >= m)
    ensures if StatementWins(l.row, l.contenders[x]) then Shut(Executed(l, x).row, m) else Unclaimed(Executed(l, x), e)
  {
    var c := l.contenders[x];
    assert Placed(c, e);
    if StatementWins(l.row, c) {
      WinningShuts(l.row, c, a, m, e);
    } else {
      if Onward(l.row, c).Some? {
        PlacedMoves(l.row, c, e);
      }
      forall y | y in Executed(l, x).contenders
        ensures Placed(Executed(l, x).contenders[y], e)
      {
        assert y != x ==> Placed(l.contenders[y], e);
      }
    }
  }

  lemma {:induction false} OthersLeaveItUnclaimed(byIndex: bool, l: Ledger, step: Step, e: Option<int>)
    requires Unclaimed(l, e) && !Deletes(byIndex, l, step) && !step.Arrive? && !step.Execute?
    ensures Unclaimed(After(byIndex, l, step), e)
  {
    var next := After(byIndex, l, step);
    forall y | y in next.contenders
      ensures Placed(next.contenders[y], e)
    {
      assert Placed(l.contenders[y], e);
    }
  }

  lemma {:induction false} TogetherStays(byIndex: bool, l: Ledger, step: Step, a: int, m: int)
    requires Together(l, a, m) && !step.Arrive?
    ensures Together(After(byIndex, l, step), a, m)
  {
  }

  ghost predicate RaceSoFar(l: Ledger, winners: nat, a: int, m: int, e: Option<int>) {
    && Contending(l) && Together(l, a, m)
    && ((winners == 0 && Unclaimed(l, e)) || (winners == 1 && Shut(l.row, m)))
  }

  lemma {:induction false} RaceKeeps(byIndex: bool, l: Ledger, steps: seq<Step>, a: int, m: int, e: Option<int>)
    requires RaceSoFar(l, 0, a, m, e) && (e.Some? ==> e.value < a || e.value + 1 >= m)
    requires Unclaimed(l, e)
    requires NoDeletion(byIndex, l, steps) && forall k | 0 <= k < |steps| :: !steps[k].Arrive?
    ensures RaceSoFar(Run(byIndex, l, steps), Winners(byIndex, l, steps), a, m, e)
  {
    if steps != [] {
      var n := |steps| - 1;
      NoDeletionBefore(byIndex, l, steps, n);
      RaceKeeps(byIndex, l, steps[..n], a, m, e);
      var before := Run(byIndex, l, steps[..n]);
      StepKeepsContending(byIndex, before, steps[n]);
      TogetherStays(byIndex, before, steps[n], a, m);
      if Winners(byIndex, l, steps[..n]) == 0 && Unclaimed(before, e) {
        RaceStep(byIndex, before, steps[n], a, m, e);
      } else {
        ShutStaysShut(byIndex, before, steps[n], m);
      }
    }
  }

  /**
   Of any number of requests that start `Begin` within one lease of each other, at most one wins,
   however their statements interleave with each other and with anything but a deletion of the row;
   provided the key's life does not end while they race.
   */
  lemma {:induction false} RacersHaveOneWinner(byIndex: bool, l: Ledger, steps: seq<Step>, a: int, m: int)
    requires Contending(l) && Together(l, a, m) && forall x | x in l.contenders :: l.contenders[x].at.Inserting?
    requires l.row.Some? ==> l.row.value.expiresAt < a || l.row.value.expiresAt + 1 >= m
    requires NoDeletion(byIndex, l, steps) && forall k | 0 <= k < |steps| :: !steps[k].Arrive?
    ensures Winners(byIndex, l, steps) <= 1
  {
    var e := if l.row.Some? then Some(l.row.value.expiresAt) else None;
    assert Unclaimed(l, e);
    RaceKeeps(byIndex, l, steps, a, m, e);
  }

  // ------------------------------------------------------------- what losers see

  /** The row went away while contender `x` was between its statements. */
  ghost predicate DeletedUnder(byIndex: bool, steps: seq<Step>, x: nat, k: nat) {
    && k < |steps| && x in Run(byIndex, UNUSED, steps[..k]).contenders
    && !Run(byIndex, UNUSED, steps[..k]).contenders[x].at.Inserting?
    && Deletes(byIndex, Run(byIndex, UNUSED, steps[..k]), steps[k])
  }

  /** A contender past its INSERT found a row; if there is none now, somebody deleted it since. */
  lemma {:induction false} GoneMeansDeleted(byIndex: bool, steps: seq<Step>, x: nat) returns (k: nat)
    requires x in Run(byIndex, UNUSED, steps).contenders && !Run(byIndex, UNUSED, steps).contenders[x].at.Inserting?
    requires Run(byIndex, UNUSED, steps).row.None?
    ensures DeletedUnder(byIndex, steps, x, k)
  {
    var n := |steps| - 1;
    var before := Run(byIndex, UNUSED, steps[..n]);
    PastInsert(byIndex, before, steps[n], x);
    if before.row.None? {
      k := GoneMeansDeleted(byIndex, steps[..n], x);
      assert steps[..n][..k] == steps[..k];
    } else {
      k := n;
    }
  }

  lemma {:induction false} PastInsert(byIndex: bool, l: Ledger, step: Step, x: nat)
    requires x in After(byIndex, l, step).contenders && !After(byIndex, l, step).contenders[x].at.Inserting?
    requires After(byIndex, l, step).row.None?
    ensures x in l.contenders && !l.contenders[x].at.Inserting?
  {
  }

  /**
   A caller of `Begin` is told its key is missing, which it answers as a failure of its own, only if the
   row was deleted between the INSERT it lost and the row it then read.
   */
  lemma {:induction false} MissingMeansDeleted(byIndex: bool, steps: seq<Step>, x: nat) returns (k: nat)
    requires x in Run(byIndex, UNUSED, steps).told && Run(byIndex, UNUSED, steps).told[x] == Missing
    ensures DeletedUnder(byIndex, steps, x, k)
  {
    var n := |steps| - 1;
    var before := Run(byIndex, UNUSED, steps[..n]);
    if x in before.told && before.told[x] == Missing {
      k := MissingMeansDeleted(byIndex, steps[..n], x);
    } else {
      ToldMissing(byIndex, before, steps[n], x);
      k := GoneMeansDeleted(byIndex, steps[..n], x);
    }
    assert steps[..n][..k] == steps[..k];
  }

  lemma {:induction false} ToldMissing(byIndex: bool, l: Ledger, step: Step, x: nat)
    requires x in After(byIndex, l, step).told && After(byIndex, l, step).told[x] == Missing
    requires !(x in l.told && l.told[x] == Missing)
    ensures x in l.contenders && !l.contenders[x].at.Inserting? && l.row.None?
  {
  }

  /** Otherwise a loser is told of the row as it is when it reads it last, and changes nothing. */
  lemma {:induction false} LosersAreToldWhatIsThere(byIndex: bool, l: Ledger, x: nat)
    requires x in l.contenders && !Wins(l, Execute(x))
    ensures var next := After(byIndex, l, Execute(x));
            && next.row == l.row && next.live == l.live && next.orders == l.orders
            && (x !in next.contenders ==>
                  && x in next.told && !next.told[x].Mine?
                  && (next.told[x].Missing? <==> l.row.None?)
                  && (next.told[x].Replay? <==>
                        l.row.Some? && l.row.value.hash == l.contenders[x].hash && l.row.value.state.Completed?)
                  && (next.told[x].Replay? ==> next.told[x].response == l.row.value.state.response)
                  && (next.told[x].InFlight? <==>
                        l.row.Some? && l.row.value.hash == l.contenders[x].hash && l.row.value.state.Processing?)
                  && (next.told[x].Mismatch? <==> l.row.Some? && l.row.value.hash != l.contenders[x].hash))
  {
  }

  /** The row is the claim of body `hash`, not to be won by a clock that reads less than `m`. */
  ghost predicate Held(row: Option<Record>, m: int, hash: int) {
    Shut(row, m) && row.value.hash == hash
  }

  lemma {:induction false} HeldStaysHeld(byIndex: bool, l: Ledger, step: Step, m: int, hash: int)
    requires Contending(l) && Held(l.row, m, hash) && !Deletes(byIndex, l, step) && l.clock < m
    ensures Held(After(byIndex, l, step).row, m, hash)
  {
    ShutStaysShut(byIndex, l, step, m);
    if step.Execute? && step.contender in l.contenders {
      assert ContenderFits(l.clock, l.tick, step.contender, l.contenders[step.contender]);
    }
  }

  lemma {:induction false} ClockGoesOn(byIndex: bool, l: Ledger, step: Step)
    ensures l.clock <= After(byIndex, l, step).clock
  {
  }

  lemma {:induction false} HeldThroughout(byIndex: bool, l: Ledger, steps: seq<Step>, m: int, hash: int)
    requires Contending(l) && Held(l.row, m, hash) && NoDeletion(byIndex, l, steps) && Run(byIndex, l, steps).clock < m
    ensures Contending(Run(byIndex, l, steps)) && Held(Run(byIndex, l, steps).row, m, hash)
  {
    if steps != [] {
      var n := |steps| - 1;
      var before := Run(byIndex, l, steps[..n]);
      NoDeletionBefore(byIndex, l, steps, n);
      ClockGoesOn(byIndex, before, steps[n]);
      HeldThroughout(byIndex, l, steps[..n], m, hash);
      StepKeepsContending(byIndex, before, steps[n]);
      HeldStaysHeld(byIndex, before, steps[n], m, hash);
    }
  }

  lemma {:induction false} TheWinnerHolds(byIndex: bool, l: Ledger, first: Step)
    requires Contending(l) && Wins(l, first)
    ensures var claimed := After(byIndex, l, first);
            && Contending(claimed) && claimed.row.Some? && claimed.row.value.hash == l.contenders[first.contender].hash
            && Held(claimed.row, StandsUntil(claimed.row.value), claimed.row.value.hash)
  {
    StepKeepsContending(byIndex, l, first);
    assert ContenderFits(l.clock, l.tick, first.contender, l.contenders[first.contender]);
  }

  /**
   While a winner's lease and its key's life last, and nobody deletes the row, a retry of the same body
   is told that it is in flight, or the stored response once there is one: never that the key belongs to
   another request, which is what a different body is told.
   */
  lemma {:induction false} ARetryIsNeverAMismatch(byIndex: bool, l: Ledger, first: Step, steps: seq<Step>, x: nat)
    requires Contending(l) && Wins(l, first) && NoDeletion(byIndex, After(byIndex, l, first), steps)
    requires var claimed := After(byIndex, l, first);
             var mid := Run(byIndex, claimed, steps);
             && claimed.row.Some? && mid.clock < StandsUntil(claimed.row.value)
             && x in mid.contenders && x !in After(byIndex, mid, Execute(x)).contenders
    ensures var mid := Run(byIndex, After(byIndex, l, first), steps);
            var told := After(byIndex, mid, Execute(x)).told;
            && mid.row.Some? && x in told
            && if mid.contenders[x].hash != l.contenders[first.contender].hash then told[x] == Mismatch
               else if mid.row.value.state.Processing? then told[x] == InFlight
               else told[x] == Replay(mid.row.value.state.response)
  {
    var claimed := After(byIndex, l, first);
    var m := StandsUntil(claimed.row.value);
    TheWinnerHolds(byIndex, l, first);
    HeldThroughout(byIndex, claimed, steps, m, claimed.row.value.hash);
    var mid := Run(byIndex, claimed, steps);
    assert ContenderFits(mid.clock, mid.tick, x, mid.contenders[x]);
    LosersAreToldWhatIsThere(byIndex, mid, x);
  }

  // ----------------------------------------------- what the lease alone misses

  lemma {:induction false} BeginAlone(byIndex: bool, before: seq<Step>, hash: int, lease: int) returns (steps: seq<Step>, x: nat)
    requires Run(byIndex, UNUSED, before).contenders == map[]
    ensures var l := Run(byIndex, UNUSED, before);
            x == l.tick && Answered(l, Run(byIndex, UNUSED, steps), x, Arrived(hash, lease, l.clock))
  {
    var l := Run(byIndex, UNUSED, before);
    x := l.tick;
    UndisturbedBeginIsAtomic(byIndex, before, hash, lease);
    steps := before + [Arrive(hash, lease)] + Alone(x, Needed(l.row, Arrived(hash, lease, l.clock)));
  }

  lemma {:induction false} FirstClaim(byIndex: bool) returns (steps: seq<Step>, x: nat)
    ensures var l := Run(byIndex, UNUSED, steps);
            && l.row == Some(Record(7, Processing, Some(DEFAULT_LEASE), TTL)) && l.contenders == map[]
            && l.live == map[x := Attempt(Working, DEFAULT_LEASE, TTL)]
            && l.orders == [] && l.clock == 0 && l.epoch == 0
  {
    steps, x := BeginAlone(byIndex, [], 7, 0);
  }

  /** Its worker is killed, and the key's life is about to end. */
  lemma {:induction false} AbandonedClaim() returns (steps: seq<Step>)
    ensures var l := Run(false, UNUSED, steps);
            && l.row == Some(Record(7, Processing, Some(DEFAULT_LEASE), TTL)) && l.contenders == map[]
            && l.live == map[] && l.orders == [] && l.clock == TTL - 1 && l.epoch == 0
  {
    var one, dead := FirstClaim(false);
    Grown(false, UNUSED, one, Crash(dead));
    var two := one + [Crash(dead)];
    assert Run(false, UNUSED, two).live == map[] && Run(false, UNUSED, two).contenders == map[];
    Grown(false, UNUSED, two, Wait(TTL - 1));
    steps := two + [Wait(TTL - 1)];
  }

  /** A claim taken over one instant before the key's life ends. */
  lemma {:induction false} TakenOverAtTheEnd() returns (steps: seq<Step>, x: nat)
    ensures var l := Run(false, UNUSED, steps);
            && l.row == Some(Record(7, Processing, Some(TTL - 1 + DEFAULT_LEASE), TTL)) && l.contenders == map[]
            && l.live == map[x := Attempt(Working, TTL - 1 + DEFAULT_LEASE, TTL)] && x < l.tick
            && l.orders == [] && l.clock == TTL - 1 && l.epoch == 0
  {
    var three := AbandonedClaim();
    var four;
    four, x := BeginAlone(false, three, 7, 0);
    assert Run(false, UNUSED, four).live == map[x := Attempt(Checking, TTL - 1 + DEFAULT_LEASE, TTL)];
    Grown(false, UNUSED, four, Look(x));
    steps := four + [Look(x)];
  }

  /**
   Reviving an expired key does not ask whether its lease has lapsed. A request that is within its
   lease when the key's life ends is joined by a second one, and without the index both make an
   order.
   */
  lemma {:induction false} ALeaseAcrossTheEndOfLife() returns (steps: seq<Step>, x: nat, y: nat)
    ensures var l := Run(false, UNUSED, steps);
            && l.orders == [0, 0] && x != y && x in l.live && y in l.live
            && l.clock < l.live[x].leaseUntil && l.clock < l.live[y].leaseUntil
  {
    var five;
    five, x := TakenOverAtTheEnd();
    Grown(false, UNUSED, five, Wait(TTL + 1));
    var six := five + [Wait(TTL + 1)];
    var seven;
    seven, y := BeginAlone(false, six, 7, 0);
    assert Run(false, UNUSED, seven).live[y] == Attempt(Checking, TTL + 1 + DEFAULT_LEASE, 2 * TTL + 1);
    steps := BothCommit(seven, x, y);
  }

  lemma {:induction false} BothCommit(before: seq<Step>, x: nat, y: nat) returns (steps: seq<Step>)
    requires var l := Run(false, UNUSED, before);
             && l.orders == [] && l.epoch == 0 && x != y && x in l.live && y in l.live
             && l.live[x].phase.Working? && l.live[y].phase.Checking?
    ensures var l, end := Run(false, UNUSED, before), Run(false, UNUSED, steps);
            && end.orders == [0, 0] && end.clock == l.clock && x in end.live && y in end.live
            && end.live[x].leaseUntil == l.live[x].leaseUntil && end.live[y].leaseUntil == l.live[y].leaseUntil
  {
    Grown(false, UNUSED, before, Look(y));
    var one := before + [Look(y)];
    Grown(false, UNUSED, one, Commit(x));
    var two := one + [Commit(x)];
    Grown(false, UNUSED, two, Commit(y));
    steps := two + [Commit(y)];
  }

  /** An order made by a request that then died, and its claim taken over. */
  lemma {:induction false} OrphanedOrder() returns (steps: seq<Step>, x: nat)
    ensures var l := Run(false, UNUSED, steps);
            && l.row.Some? && l.row.value.state.Processing? && l.contenders == map[]
            && l.orders == [0] && l.epoch == 0 && l.live.Keys == {x} && l.live[x].phase.Checking?
  {
    var one, dead := FirstClaim(false);
    Grown(false, UNUSED, one, Commit(dead));
    var two := one + [Commit(dead)];
    Grown(false, UNUSED, two, Crash(dead));
    var three := two + [Crash(dead)];
    assert Run(false, UNUSED, three).live == map[] && Run(false, UNUSED, three).contenders == map[];
    Grown(false, UNUSED, three, Wait(DEFAULT_LEASE));
    var four := three + [Wait(DEFAULT_LEASE)];
    steps, x := BeginAlone(false, four, 7, 0);
  }

  /**
   A look that fails drops the claim, and the next retry is told it is the first: it does not look
   at all. Without the index it makes a second order.
   */
  lemma {:induction false} AFailedLookForgets() returns (steps: seq<Step>)
    ensures Run(false, UNUSED, steps).orders == [0, 0]
  {
    var five, x := OrphanedOrder();
    Grown(false, UNUSED, five, LookFails(x));
    var six := five + [LookFails(x)];
    assert Run(false, UNUSED, six).live == map[] && Run(false, UNUSED, six).contenders == map[];
    var seven, y := BeginAlone(false, six, 7, 0);
    assert Run(false, UNUSED, seven).live[y].phase.Working?;
    Grown(false, UNUSED, seven, Commit(y));
    steps := seven + [Commit(y)];
  }

  lemma {:induction false} GrownHonest(byIndex: bool, steps: seq<Step>, step: Step)
    requires HonestRun(byIndex, steps) && Honest(After(byIndex, Run(byIndex, UNUSED, steps), step)) && !step.LookFails?
    ensures HonestRun(byIndex, steps + [step])
    ensures Run(byIndex, UNUSED, steps + [step]) == After(byIndex, Run(byIndex, UNUSED, steps), step)
  {
    Grown(byIndex, UNUSED, steps, step);
    assert (steps + [step])[..|steps|] == steps;
  }

  /** A first claim, in a run in which everybody ends in time. */
  lemma {:induction false} HonestClaim(byIndex: bool) returns (steps: seq<Step>)
    ensures HonestRun(byIndex, steps)
    ensures var l := Run(byIndex, UNUSED, steps);
            && l.row == Some(Record(7, Processing, Some(DEFAULT_LEASE), TTL)) && l.contenders == map[]
            && l.live == map[0 := Attempt(Working, DEFAULT_LEASE, TTL)]
            && l.orders == [] && l.replays == [] && l.clock == 0 && l.tick == 2 && l.epoch == 0
  {
    steps := [];
    GrownHonest(byIndex, steps, Arrive(7, 0));
    steps := steps + [Arrive(7, 0)];
    assert Run(byIndex, UNUSED, steps).contenders == map[0 := Arrived(7, 0, 0)];
    GrownHonest(byIndex, steps, Execute(0));
    steps := steps + [Execute(0)];
    assert Run(byIndex, UNUSED, steps).contenders == map[];
  }

  /** A request that finished. */
  lemma {:induction false} FinishedOrder() returns (steps: seq<Step>)
    ensures HonestRun(true, steps)
    ensures var l := Run(true, UNUSED, steps);
            && l.row.Some? && l.row.value.expiresAt == TTL && l.orders == [0] && l.live == map[] && l.contenders == map[]
            && l.replays == [] && l.tick == 4 && l.epoch == 0 && l.clock == 0
  {
    steps := HonestClaim(true);
    GrownHonest(true, steps, Commit(0));
    steps := steps + [Commit(0)];
    GrownHonest(true, steps, Record_(0));
    steps := steps + [Record_(0)];
    assert Run(true, UNUSED, steps).live == map[];
  }

  /** And whose record was then pruned. */
  lemma {:induction false} PrunedOrder() returns (steps: seq<Step>)
    ensures HonestRun(true, steps)
    ensures var l := Run(true, UNUSED, steps);
            && l.row.None? && l.orders == [0] && l.live == map[] && l.contenders == map[] && l.replays == []
            && l.tick == 6 && l.epoch == 1 && l.clock == TTL + 1
  {
    steps := FinishedOrder();
    GrownHonest(true, steps, Wait(TTL + 1));
    steps := steps + [Wait(TTL + 1)];
    GrownHonest(true, steps, Prune);
    steps := steps + [Prune];
  }

  /**
   With the index, a retry after its key was pruned is not a replay: it runs as new, is refused for
   the order it made before, and is never shown it.
   */
  lemma {:induction false} APrunedKeyIsRefusedItsOwnOrder() returns (steps: seq<Step>)
    ensures HonestRun(true, steps)
    ensures var l := Run(true, UNUSED, steps);
            l.orders == [0] && l.row.None? && l.live == map[] && l.replays == []
    ensures steps != [] && steps[|steps| - 1].Commit?
  {
    steps := PrunedOrder();
    GrownHonest(true, steps, Arrive(7, 0));
    steps := steps + [Arrive(7, 0)];
    assert Run(true, UNUSED, steps).contenders == map[6 := Arrived(7, 0, TTL + 1)];
    GrownHonest(true, steps, Execute(6));
    steps := steps + [Execute(6)];
    assert Run(true, UNUSED, steps).live == map[6 := Attempt(Working, TTL + 1 + DEFAULT_LEASE, 2 * TTL + 1)];
    GrownHonest(true, steps, Commit(6));
    steps := steps + [Commit(6)];
    assert Run(true, UNUSED, steps).live == map[];
  }

  /** A second request loses its INSERT to the first. */
  lemma {:induction false} LostInsert(byIndex: bool) returns (steps: seq<Step>)
    ensures HonestRun(byIndex, steps)
    ensures var l := Run(byIndex, UNUSED, steps);
            && l.row.Some? && l.row.value.state.Processing? && l.clock == 0
            && l.live == map[0 := Attempt(Working, DEFAULT_LEASE, TTL)]
            && 2 in l.contenders && l.contenders[2] == Arrived(7, 0, 0).(at := Reading)
  {
    steps := HonestClaim(byIndex);
    GrownHonest(byIndex, steps, Arrive(7, 0));
    steps := steps + [Arrive(7, 0)];
    assert Run(byIndex, UNUSED, steps).contenders == map[2 := Arrived(7, 0, 0)];
    GrownHonest(byIndex, steps, Execute(2));
    steps := steps + [Execute(2)];
  }

  /**
   The deletion under a loser does happen, to requests that all end in time: one loses its INSERT, the
   winner fails and releases, and the loser's SELECT finds nothing.
   */
  lemma {:induction false} ALoserIsToldItsKeyIsMissing(byIndex: bool) returns (steps: seq<Step>, x: nat)
    ensures HonestRun(byIndex, steps)
    ensures x in Run(byIndex, UNUSED, steps).told && Run(byIndex, UNUSED, steps).told[x] == Missing
  {
    steps := LostInsert(byIndex);
    x := 2;
    GrownHonest(byIndex, steps, Fail(0));
    steps := steps + [Fail(0)];
    GrownHonest(byIndex, steps, Execute(2));
    steps := steps + [Execute(2)];
  }

  // ------------------------------------------------------------- the store

  const SECOND := 1_000_000_000

  /** A minute, unless the endpoint asks for its own. */
  function LeaseOf(lease: int): int { if lease <= 0 then 60 * SECOND else lease }

  /** What happened to the row between two statements of one `Begin`. */
  datatype Meanwhile = Nothing | Others(row: Option<Record>)

  function Found(row: Option<Record>, meanwhile: Meanwhile): Option<Record> {
    if meanwhile.Nothing? then row else meanwhile.row
  }

  /** Some statement of somebody else's left no row. */
  ghost predicate SomebodyDeleted(between: seq<Meanwhile>) {
    exists k :: 0 <= k < |between| && between[k] == Others(None)
  }

  ghost predicate Undisturbed(between: seq<Meanwhile>) {
    forall k | 0 <= k < |between| :: between[k].Nothing?
  }

  /** The row of one key, and the statements that change it. */
  class KeyStore {
    var row: Option<Record>

    constructor ()
      ensures row == None
    {
      row := None;
    }

    /** Other requests' statements run. */
    method Let(meanwhile: Meanwhile)
      modifies this
      ensures row == Found(old(row), meanwhile)
    {
      if meanwhile.Others? {
        row := meanwhile.row;
      }
    }

    /** An INSERT that does nothing on conflict. */
    method Insert(c: Contender) returns (won: bool)
      requires c.at.Inserting?
      modifies this
      ensures won == StatementWins(old(row), c) && row == Written(old(row), c)
    {
      won := row.None?;
      if won {
        row := Some(Record(c.hash, Processing, Some(c.now + c.lease), c.now + TTL));
      }
    }

    /** An UPDATE on the expiry that was read. */
    method Revive(c: Contender) returns (won: bool)
      requires c.at.Reviving?
      modifies this
      ensures won == StatementWins(old(row), c) && row == Written(old(row), c)
    {
      won := row.Some? && row.value.expiresAt == c.at.seen;
      if won {
        row := Some(Record(c.hash, Processing, Some(c.now + c.lease), c.now + TTL));
      }
    }

    /** An UPDATE of an unfinished claim of this body whose lease has lapsed. */
    method TakeOver(c: Contender) returns (won: bool)
      requires c.at.TakingOver?
      modifies this
      ensures won == StatementWins(old(row), c) && row == Written(old(row), c)
    {
      won := row.Some? && row.value.state.Processing? && row.value.hash == c.hash
             && (row.value.lease.None? || row.value.lease.value <= c.now);
      if won {
        row := Some(row.value.(lease := Some(c.now + c.lease)));
      }
    }

    /**
     `Begin`, statement by statement, with anything happening to the row between any two of them. It
     wins only with the key in its name; it loses leaving the row as others left it; it misses the key
     only if somebody deleted it; and with nothing in between it is the one atomic decision.
     */
    method Begin(hash: int, lease: int, now: int, between: seq<Meanwhile>) returns (answer: Answer)
      requires |between| == 5
      modifies this
      ensures answer.Mine? ==>
                && row.Some? && row.value.state.Processing? && row.value.hash == hash
                && row.value.lease == Some(now + LeaseOf(lease))
      ensures answer == Mine(false) ==> old(row).None? && row == Some(Arrived(hash, lease, now).NewRow())
      ensures !answer.Mine? ==> answer == Verdict(row, hash) && (row == old(row) || exists k :: 0 <= k < 5 && between[k] == Others(row))
      ensures answer.Missing? ==> SomebodyDeleted(between)
      ensures !answer.Mine? ==>
                && (answer.Missing? <==> row.None?)
                && (answer.Mismatch? <==> row.Some? && row.value.hash != hash)
                && (answer.InFlight? <==> row.Some? && row.value.hash == hash && row.value.state.Processing?)
                && (answer.Replay? ==> row.value.state == Completed(answer.response))
      ensures Undisturbed(between) ==>
                answer == Outcome(old(row), hash, now) && row == Begun(old(row), Arrived(hash, lease, now))
      ensures Undisturbed(between) && (old(row).None? || old(row).value.expiresAt < now) ==>
                && answer == Mine(old(row).Some?)
                && row == Some(Record(hash, Processing, Some(now + LeaseOf(lease)), now + 24 * 3600 * SECOND))
      ensures Undisturbed(between) && old(row).Some? && now <= old(row).value.expiresAt ==>
                if old(row).value.state.Processing? && old(row).value.hash == hash
                   && (old(row).value.lease.None? || old(row).value.lease.value <= now)
                then answer == Mine(true) && row == Some(old(row).value.(lease := Some(now + LeaseOf(lease))))
                else !answer.Mine? && row == old(row)
    {
      var c := Arrived(hash, lease, now);
      var won := Insert(c);
      if won {
        return Mine(false);
      }
      Let(between[0]);
      if row.None? {
        return Missing;
      }
      var existing := row.value;
      if now > existing.expiresAt {
        Let(between[1]);
        won := Revive(c.(at := Reviving(existing.expiresAt)));
        if won {
          return Mine(true);
        }
        Let(between[2]);
        if row.None? {
          return Missing;
        }
        existing := row.value;
      }
      if existing.Lapsed(now) && existing.hash == hash {
        Let(between[3]);
        won := TakeOver(c.(at := TakingOver));
        if won {
          return Mine(true);
        }
        Let(between[4]);
        if row.None? {
          return Missing;
        }
        existing := row.value;
      }
      return Verdict(Some(existing), hash);
    }

    /** The response is stored and replayed to whoever comes next with this body and clock. */
    method Complete(response: Response) returns (found: bool)
      modifies this
      ensures found == old(row).Some? == row.Some?
      ensures found ==>
                && row == Some(old(row).value.(state := Completed(response), lease := None))
                && forall now | now <= row.value.expiresAt :: Outcome(row, row.value.hash, now) == Replay(response)
    {
      found := row.Some?;
      if found {
        row := Some(row.value.(state := Completed(response), lease := None));
      }
    }

    /** An unfinished key is anybody's again at once; a finished one keeps its response. */
    method Release()
      modifies this
      ensures old(row).Some? && old(row).value.state.Completed? ==> row == old(row)
      ensures old(row).None? || old(row).value.state.Processing? ==> row.None? && forall hash, now :: Outcome(row, hash, now) == Mine(false)
    {
      if row.Some? && row.value.state == Processing {
        row := None;
      }
    }

    /** Only a key that any later request would revive is forgotten. */
    method DeleteExpired(now: int) returns (count: nat)
      modifies this
      ensures count == 0 ==> row == old(row)
      ensures count > 0 ==> row.None? && forall hash, later | later >= now :: Outcome(old(row), hash, later) == Mine(true)
      ensures row.Some? ==> now <= row.value.expiresAt
    {
      if row.Some? && row.value.expiresAt < now {
        row := None;
        return 1;
      }
      return 0;
    }
  }
}
