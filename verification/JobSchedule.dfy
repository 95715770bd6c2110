/**
 When a job runs: never before its time, and for a job put off, by a schedule or by a backoff, never
 before the time it was put off to.
 (infra/repositories/queue/job_repository.go, domain/queue/queue.go, usecases/queue/worker.go)
 */
module JobSchedule {
  import opened Results
  import opened Text
  import opened JobLedger

  /** An attempt at job `j` is in hand that was not in hand before. */
  ghost predicate Starts(l: Ledger, next: Ledger, j: nat) {
    exists x :: x in next.live && x !in l.live && next.live[x].job == j
  }

  ghost predicate StartsAt(w: Windows, steps: seq<Step>, k: nat, j: nat)
    requires k < |steps|
  {
    Starts(Run(w, EMPTY, steps[..k]), Run(w, EMPTY, steps[..k + 1]), j)
  }

  lemma {:induction false} RunTo(w: Windows, steps: seq<Step>, k: nat)
    requires k < |steps|
    ensures Run(w, EMPTY, steps[..k + 1]) == After(w, Run(w, EMPTY, steps[..k]), steps[k])
  {
    assert steps[..k + 1][..k] == steps[..k];
  }

  lemma {:induction false} TicksAreFresh(w: Windows, steps: seq<Step>)
    ensures forall x | x in Run(w, EMPTY, steps).live :: x < Run(w, EMPTY, steps).tick
  {
    if steps != [] {
      TicksAreFresh(w, steps[..|steps| - 1]);
    }
  }

  lemma {:induction false} AClaimStarts(w: Windows, l: Ledger, j: nat)
    requires l.tick !in l.live
    ensures Starts(l, After(w, l, Claim(j)), j) <==> j < |l.jobs| && l.jobs[j].status.Pending? && l.jobs[j].runAt <= l.clock
  {
    if j < |l.jobs| && l.jobs[j].status.Pending? && l.jobs[j].runAt <= l.clock {
      assert l.tick in After(w, l, Claim(j)).live && After(w, l, Claim(j)).live[l.tick].job == j;
    }
  }

  /**
   Over any run, whatever the windows, an attempt at a job starts when it is claimed waiting and its time
   has come, and at no other moment.
   */
  lemma {:induction false} AttemptsStartExactlyWhenDue(w: Windows, steps: seq<Step>, k: nat, j: nat)
    requires k < |steps|
    ensures var l := Run(w, EMPTY, steps[..k]);
            StartsAt(w, steps, k, j) <==>
              steps[k] == Claim(j) && j < |l.jobs| && l.jobs[j].status.Pending? && l.jobs[j].runAt <= l.clock
  {
    RunTo(w, steps, k);
    TicksAreFresh(w, steps[..k]);
    if steps[k] == Claim(j) {
      AClaimStarts(w, Run(w, EMPTY, steps[..k]), j);
    }
  }

  // ---------------------------------------------------------------- put off

  /** Until `due` the job waits for it. */
  predicate PutOff(jobs: seq<Job>, clock: int, j: nat, due: int) {
    clock >= due || (j < |jobs| && jobs[j].status.Pending? && jobs[j].runAt >= due)
  }

  lemma {:induction false} StaysPutOff(w: Windows, l: Ledger, step: Step, j: nat, due: int)
    requires Inv(w, l) && PutOff(l.jobs, l.clock, j, due)
    ensures PutOff(After(w, l, step).jobs, After(w, l, step).clock, j, due)
  {
    match step {
      case Enqueue(key, runAt, maxAttempts) =>
      case Finish(x, outcome) =>
        if x in l.live {
          assert InHand(w, l, x, l.live[x]);
        }
      case _ =>
    }
  }

  lemma {:induction false} PutOffUntil(w: Windows, steps: seq<Step>, i: nat, k: nat, j: nat, due: int)
    requires 0 <= w.limit <= w.staleAfter && i <= k <= |steps|
    requires PutOff(Run(w, EMPTY, steps[..i]).jobs, Run(w, EMPTY, steps[..i]).clock, j, due)
    ensures PutOff(Run(w, EMPTY, steps[..k]).jobs, Run(w, EMPTY, steps[..k]).clock, j, due)
    decreases k
  {
    if i < k {
      PutOffUntil(w, steps, i, k - 1, j, due);
      OneMoreStep(w, steps, k - 1, j, due);
    }
  }

  lemma {:induction false} OneMoreStep(w: Windows, steps: seq<Step>, k: nat, j: nat, due: int)
    requires 0 <= w.limit <= w.staleAfter && k < |steps|
    requires PutOff(Run(w, EMPTY, steps[..k]).jobs, Run(w, EMPTY, steps[..k]).clock, j, due)
    ensures PutOff(Run(w, EMPTY, steps[..k + 1]).jobs, Run(w, EMPTY, steps[..k + 1]).clock, j, due)
  {
    RunTo(w, steps, k);
    RunKeepsInv(w, steps[..k]);
    StaysPutOff(w, Run(w, EMPTY, steps[..k]), steps[k], j, due);
  }

  lemma {:induction false} NotBefore(w: Windows, steps: seq<Step>, i: nat, k: nat, j: nat, due: int)
    requires 0 <= w.limit <= w.staleAfter && i <= k < |steps|
    requires PutOff(Run(w, EMPTY, steps[..i]).jobs, Run(w, EMPTY, steps[..i]).clock, j, due)
    requires StartsAt(w, steps, k, j)
    ensures Run(w, EMPTY, steps[..k]).clock >= due
  {
    PutOffUntil(w, steps, i, k, j, due);
    AttemptsStartExactlyWhenDue(w, steps, k, j);
  }

  /** Step `i` enqueues a new row: job `j`, scheduled for `due`. */
  ghost predicate Schedules(w: Windows, steps: seq<Step>, i: nat, j: nat, due: int)
    requires i < |steps|
  {
    && steps[i].Enqueue? && steps[i].runAt == due
    && |Run(w, EMPTY, steps[..i]).jobs| == j < |Run(w, EMPTY, steps[..i + 1]).jobs|
  }

  lemma {:induction false} ANewRowIsPutOff(w: Windows, l: Ledger, key: string, due: int, maxAttempts: int)
    requires |l.jobs| < |After(w, l, Enqueue(key, due, maxAttempts)).jobs|
    ensures PutOff(After(w, l, Enqueue(key, due, maxAttempts)).jobs, l.clock, |l.jobs|, due)
  {
  }

  /** No attempt at a job scheduled for later, a hold's expiry for one, starts before the time it was scheduled for. */
  lemma {:induction false} AnAppointmentIsKept(w: Windows, steps: seq<Step>, i: nat, k: nat, j: nat, due: int)
    requires 0 <= w.limit <= w.staleAfter && i < k < |steps|
    requires Schedules(w, steps, i, j, due) && StartsAt(w, steps, k, j)
    ensures Run(w, EMPTY, steps[..k]).clock >= due
  {
    RunTo(w, steps, i);
    ANewRowIsPutOff(w, Run(w, EMPTY, steps[..i]), steps[i].key, due, steps[i].maxAttempts);
    NotBefore(w, steps, i + 1, k, j, due);
  }

  // ---------------------------------------------------------------- backoff

  /** Step `i` reports that an attempt at job `j` failed with attempts to spare, and is to wait `delay`. */
  ghost predicate PutsOff(w: Windows, steps: seq<Step>, i: nat, j: nat, delay: int)
    requires i < |steps|
  {
    var l := Run(w, EMPTY, steps[..i]);
    && steps[i].Finish? && steps[i].outcome == Failed(delay)
    && steps[i].attempt in l.live && l.live[steps[i].attempt].job == j < |l.jobs|
    && l.live[steps[i].attempt].attempts < l.live[steps[i].attempt].maxAttempts
  }

  /** No attempt after the report starts within its delay. */
  ghost predicate WaitsOut(w: Windows, steps: seq<Step>, i: nat, k: nat, j: nat, delay: int)
    requires i < k < |steps|
  {
    PutsOff(w, steps, i, j, delay) && StartsAt(w, steps, k, j) ==>
      Run(w, EMPTY, steps[..k]).clock >= Run(w, EMPTY, steps[..i]).clock + delay
  }

  ghost predicate AlwaysWaitsOut(w: Windows) {
    forall steps, i: nat, k: nat, j: nat, delay | i < k < |steps| :: WaitsOut(w, steps, i, k, j, delay)
  }

  lemma {:induction false} AFailureIsPutOff(w: Windows, l: Ledger, x: nat, delay: int)
    requires x in l.live && l.live[x].job < |l.jobs| && l.live[x].attempts < l.live[x].maxAttempts
    ensures PutOff(After(w, l, Finish(x, Failed(delay))).jobs, l.clock, l.live[x].job, l.clock + delay)
  {
  }

  lemma {:induction false} ABackoffIsWaitedOut(w: Windows, steps: seq<Step>, i: nat, k: nat, j: nat, delay: int)
    requires 0 <= w.limit <= w.staleAfter && i < k < |steps|
    ensures WaitsOut(w, steps, i, k, j, delay)
  {
    if PutsOff(w, steps, i, j, delay) && StartsAt(w, steps, k, j) {
      RunTo(w, steps, i);
      AFailureIsPutOff(w, Run(w, EMPTY, steps[..i]), steps[i].attempt, delay);
      NotBefore(w, steps, i + 1, k, j, Run(w, EMPTY, steps[..i]).clock + delay);
    }
  }

  /** Two attempts at one job fail, and the later report calls off the earlier one's backoff. */
  lemma {:induction false} ALateReportCallsOffABackoff(w: Windows) returns (steps: seq<Step>, i: nat, k: nat)
    requires 0 <= w.staleAfter < w.limit
    ensures i < k < |steps| && !WaitsOut(w, steps, i, k, 0, 1)
  {
    var six := ASecondAttemptJoins(w);
    var seven := six + [Finish(2, Failed(1))];
    var eight := seven + [Finish(6, Failed(0))];
    steps, i, k := eight + [Claim(0)], |six|, |eight|;
    Grown(w, EMPTY, six, Finish(2, Failed(1)));
    Grown(w, EMPTY, seven, Finish(6, Failed(0)));
    assert steps[..i] == six && steps[..k] == eight;
    assert PutsOff(w, steps, i, 0, 1);
    AttemptsStartExactlyWhenDue(w, steps, k, 0);
  }

  /** Over every run a job that failed waits out its backoff, exactly when no attempt outlasts its lock. */
  lemma {:induction false} BackoffsAreWaitedOutExactlyWhenAttemptsFit(w: Windows)
    requires 0 <= w.limit && 0 <= w.staleAfter
    ensures AlwaysWaitsOut(w) <==> w.limit <= w.staleAfter
  {
    if w.limit <= w.staleAfter {
      forall steps, i: nat, k: nat, j: nat, delay | i < k < |steps|
        ensures WaitsOut(w, steps, i, k, j, delay)
      {
        ABackoffIsWaitedOut(w, steps, i, k, j, delay);
      }
    } else {
      var steps, i, k := ALateReportCallsOffABackoff(w);
      assert !WaitsOut(w, steps, i, k, 0, 1);
    }
  }
}
