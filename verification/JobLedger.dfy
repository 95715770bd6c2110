/**
 The durable job ledger: the queue's port (domain/queue/queue.go), its statements
 (infra/repositories/queue/job_repository.go) and the worker around them
 (usecases/queue/worker.go).

 Any number of workers run attempts at once, crash, and are declared dead by a sweep. Time moves
 only as far as every attempt in hand is allowed to last.
 */
module JobLedger {
  import opened Results
  import opened Text

  datatype JobStatus = Pending | Processing | Done | Dead | Pruned

  /** `stamp` numbers the claim that locked the row, or the statement that parked it. */
  datatype Job = Job(
    key: Option<string>, status: JobStatus, attempts: nat, maxAttempts: int, runAt: int,
    rerun: bool, lockedAt: Option<int>, stamp: nat)
  {
    predicate Open() { status.Pending? || status.Processing? }
    predicate Due(now: int) { status.Pending? && runAt <= now }
    function Locked(now: int, tick: nat): Job {
      this.(status := Processing, attempts := attempts + 1, lockedAt := Some(now), stamp := tick)
    }
    function Completed(now: int): Job {
      if rerun then this.(status := Pending, runAt := now, attempts := 0, rerun := false, lockedAt := None)
      else this.(status := Done, lockedAt := None)
    }
    function Retried(runAt: int): Job { this.(status := Pending, runAt := runAt, rerun := false, lockedAt := None) }
    function Parked(tick: nat): Job { this.(status := Dead, rerun := false, lockedAt := None, stamp := tick) }
    predicate Stale(olderThan: int) { status.Processing? && lockedAt.Some? && lockedAt.value < olderThan }
    function Reclaimed(): Job { this.(status := Pending, lockedAt := None) }
  }

  const DEFAULT_MAX_ATTEMPTS := 8

  /** What a worker holds in hand: the row as its claim returned it. */
  datatype Attempt = Attempt(job: nat, startedAt: int, attempts: nat, maxAttempts: int)

  /** How an attempt's handler ends. A panic is a failure; a missing handler is permanent. */
  datatype Outcome = Succeeded | FailedForGood | Failed(delay: int)

  /**
   The rows, and what is true of the world around them: the attempts running now, by the tick they
   were claimed at, the clock, the last time each key was announced, and the latest claim among the
   attempts at each key that completed.
   */
  datatype Ledger = Ledger(
    jobs: seq<Job>, live: map<nat, Attempt>, clock: int, tick: nat, news: map<string, nat>, read: map<string, nat>)

  /** How long an attempt may last, bookkeeping included, and how long a lock is left alone. */
  datatype Windows = Windows(limit: int, staleAfter: int)

  datatype Step =
    | Enqueue(key: string, runAt: int, maxAttempts: int)
    | Claim(job: nat)
    | Finish(attempt: nat, outcome: Outcome)
    | Crash(attempt: nat)
    | Reclaim
    | Prune(job: nat)
    | Wait(until: int)

  // ------------------------------------------------------------ statements

  /** A blank key is stored as none, and collapses nothing. */
  function KeyOf(key: string): Option<string> {
    if Trim(key) == "" then None else Some(Trim(key))
  }

  /** The open job of a key, which the partial unique index keeps to one. */
  function OpenJob(jobs: seq<Job>, key: Option<string>): (r: Option<nat>)
    ensures r.Some? ==> r.value < |jobs| && jobs[r.value].Open() && jobs[r.value].key == key && key.Some?
  {
    if jobs == [] || key.None? then None
    else
      var n := |jobs| - 1;
      if jobs[n].Open() && jobs[n].key == key then Some(n) else OpenJob(jobs[..n], key)
  }

  function NewJob(key: string, runAt: int, maxAttempts: int): Job {
    Job(KeyOf(key), Pending, 0, if maxAttempts <= 0 then DEFAULT_MAX_ATTEMPTS else maxAttempts, runAt, false, None, 0)
  }

  /** A duplicate is absorbed by a waiting job and flags a running one. */
  function Enqueued(jobs: seq<Job>, key: string, runAt: int, maxAttempts: int): seq<Job> {
    match OpenJob(jobs, KeyOf(key))
    case None => jobs + [NewJob(key, runAt, maxAttempts)]
    case Some(j) => if jobs[j].status.Processing? then jobs[j := jobs[j].(rerun := true)] else jobs
  }

  function Swept(jobs: seq<Job>, olderThan: int): (r: seq<Job>)
    ensures |r| == |jobs|
  {
    seq(|jobs|, j requires 0 <= j < |jobs| => if jobs[j].Stale(olderThan) then jobs[j].Reclaimed() else jobs[j])
  }

  /** What the worker records about an attempt that ended, decided by the row its claim returned. */
  function Recorded(job: Job, a: Attempt, outcome: Outcome, now: int, tick: nat): Job {
    match outcome
    case Succeeded => job.Completed(now)
    case FailedForGood => job.Parked(tick)
    case Failed(delay) => if a.attempts >= a.maxAttempts then job.Parked(tick) else job.Retried(now + delay)
  }

  // ------------------------------------------------------------------ steps

  ghost function After(w: Windows, l: Ledger, step: Step): Ledger {
    var next := l.(tick := l.tick + 1);
    match step
    case Enqueue(key, runAt, maxAttempts) =>
      next.(jobs := Enqueued(l.jobs, key, runAt, maxAttempts),
            news := if KeyOf(key).Some? then l.news[KeyOf(key).value := l.tick] else l.news)
    case Claim(j) =>
      if j < |l.jobs| && l.jobs[j].Due(l.clock) then
        var job := l.jobs[j].Locked(l.clock, l.tick);
        next.(jobs := l.jobs[j := job], live := l.live[l.tick := Attempt(j, l.clock, job.attempts, job.maxAttempts)])
      else next
    case Finish(x, outcome) =>
      if x in l.live && l.live[x].job < |l.jobs| then
        var a := l.live[x];
        var job := l.jobs[a.job];
        next.(jobs := l.jobs[a.job := Recorded(job, a, outcome, l.clock, l.tick)],
              live := l.live - {x},
              read := if outcome.Succeeded? && job.key.Some? && x > Latest(l.read, job.key.value)
                      then l.read[job.key.value := x] else l.read)
      else next
    case Crash(x) => next.(live := l.live - {x})
    case Reclaim => next.(jobs := Swept(l.jobs, l.clock - w.staleAfter))
    case Prune(j) =>
      if j < |l.jobs| && l.jobs[j].status.Done? then next.(jobs := l.jobs[j := l.jobs[j].(status := Pruned)]) else next
    case Wait(until) =>
      if until >= l.clock && (forall x | x in l.live :: until <= l.live[x].startedAt + w.limit)
      then next.(clock := until) else next
  }

  function Latest(read: map<string, nat>, key: string): int {
    if key in read then read[key] else -1
  }

  ghost function Run(w: Windows, l: Ledger, steps: seq<Step>): Ledger {
    if steps == [] then l else After(w, Run(w, l, steps[..|steps| - 1]), steps[|steps| - 1])
  }

  const EMPTY := Ledger([], map[], 0, 1, map[], map[])

  // ------------------------------------------------------------- promises

  /** Some open job of the key has yet to start, or to finish, an attempt later than the news. */
  ghost predicate WillRun(l: Ledger, key: string, news: nat) {
    exists j :: 0 <= j < |l.jobs| && Owes(l.jobs[j], key, news)
  }

  ghost predicate Owes(job: Job, key: string, news: nat) {
    job.key == Some(key) && (job.status.Pending? || (job.status.Processing? && (job.rerun || job.stamp > news)))
  }

  /** A job of the key was parked after the news, where a person will find it. */
  ghost predicate WasParked(l: Ledger, key: string, news: nat) {
    exists j :: 0 <= j < |l.jobs| && ParkedSince(l.jobs[j], key, news)
  }

  ghost predicate ParkedSince(job: Job, key: string, news: nat) {
    job.key == Some(key) && job.status.Dead? && job.stamp > news
  }

  /** An attempt that started after the last announcement has completed, or one still will, or a job is parked. */
  ghost predicate Accounted(l: Ledger, key: string)
    requires key in l.news
  {
    Latest(l.read, key) > l.news[key] || WillRun(l, key, l.news[key]) || WasParked(l, key, l.news[key])
  }

  ghost predicate NothingLost(l: Ledger) {
    forall key | key in l.news :: Accounted(l, key)
  }

  /** No two workers are ever on one job. */
  ghost predicate NoOverlap(l: Ledger) {
    forall x, y | x in l.live && y in l.live && x != y :: l.live[x].job != l.live[y].job
  }

  ghost predicate OneOpenJobPerKey(l: Ledger) {
    forall i, j | 0 <= i < |l.jobs| && 0 <= j < |l.jobs| && i != j ::
      !(l.jobs[i].Open() && l.jobs[j].Open() && l.jobs[i].key.Some? && l.jobs[i].key == l.jobs[j].key)
  }

  ghost predicate Promises(l: Ledger) {
    NothingLost(l) && NoOverlap(l) && OneOpenJobPerKey(l)
  }

  // ------------------------------------------------------------- invariant

  /** An attempt in hand is the one its row is locked by, and is within its time. */
  ghost predicate InHand(w: Windows, l: Ledger, x: nat, a: Attempt) {
    && x < l.tick && a.job < |l.jobs|
    && l.jobs[a.job].status.Processing? && l.jobs[a.job].stamp == x && l.jobs[a.job].lockedAt == Some(a.startedAt)
    && l.clock <= a.startedAt + w.limit
  }

  ghost predicate Inv(w: Windows, l: Ledger) {
    && (forall x | x in l.live :: InHand(w, l, x, l.live[x]))
    && (forall key | key in l.news :: l.news[key] < l.tick && Accounted(l, key))
    && OneOpenJobPerKey(l)
  }

  lemma {:induction false} InvKeepsPromises(w: Windows, l: Ledger)
    requires Inv(w, l)
    ensures Promises(l)
  {
    forall x, y | x in l.live && y in l.live && x != y
      ensures l.live[x].job != l.live[y].job
    {
      assert InHand(w, l, x, l.live[x]) && InHand(w, l, y, l.live[y]);
    }
  }

  lemma {:induction false} NoOpenJob(jobs: seq<Job>, key: Option<string>, j: nat)
    requires OpenJob(jobs, key).None? && key.Some? && j < |jobs|
    ensures !(jobs[j].Open() && jobs[j].key == key)
  {
    var n := |jobs| - 1;
    if j < n {
      NoOpenJob(jobs[..n], key, j);
    }
  }

  /** A row that keeps what it owes keeps every key's account. */
  lemma {:induction false} StillAccounted(l: Ledger, next: Ledger, key: string)
    requires key in l.news && Accounted(l, key) && key in next.news && next.news[key] == l.news[key]
    requires |next.jobs| >= |l.jobs| && Latest(next.read, key) >= Latest(l.read, key)
    requires forall j | 0 <= j < |l.jobs| ::
               && (Owes(l.jobs[j], key, l.news[key]) ==>
                     Owes(next.jobs[j], key, l.news[key]) || ParkedSince(next.jobs[j], key, l.news[key])
                     || Latest(next.read, key) > l.news[key])
               && (ParkedSince(l.jobs[j], key, l.news[key]) ==> ParkedSince(next.jobs[j], key, l.news[key]))
    ensures Accounted(next, key)
  {
    if j :| 0 <= j < |l.jobs| && Owes(l.jobs[j], key, l.news[key]) {
      assert Owes(next.jobs[j], key, l.news[key]) || ParkedSince(next.jobs[j], key, l.news[key])
             || Latest(next.read, key) > l.news[key];
    } else if j :| 0 <= j < |l.jobs| && ParkedSince(l.jobs[j], key, l.news[key]) {
      assert ParkedSince(next.jobs[j], key, l.news[key]);
    }
  }

  /** Nothing opens that was not open, under the same key. */
  lemma {:induction false} StillOnePerKey(l: Ledger, next: Ledger)
    requires OneOpenJobPerKey(l) && |next.jobs| == |l.jobs|
    requires forall j | 0 <= j < |l.jobs| ::
               next.jobs[j].key == l.jobs[j].key && (next.jobs[j].Open() ==> l.jobs[j].Open())
    ensures OneOpenJobPerKey(next)
  {
  }

  lemma {:induction false} EnqueueKeepsInv(w: Windows, l: Ledger, key: string, runAt: int, maxAttempts: int)
    requires Inv(w, l)
    ensures Inv(w, After(w, l, Enqueue(key, runAt, maxAttempts)))
  {
    var next := After(w, l, Enqueue(key, runAt, maxAttempts));
    forall x | x in next.live
      ensures InHand(w, next, x, next.live[x])
    {
      assert InHand(w, l, x, l.live[x]);
    }
    forall other | other in next.news
      ensures next.news[other] < next.tick && Accounted(next, other)
    {
      EnqueueKeepsAccounts(w, l, key, runAt, maxAttempts, other);
    }
    EnqueueKeepsOnePerKey(l, key, runAt, maxAttempts);
  }

  lemma {:induction false} EnqueueKeepsAccounts(w: Windows, l: Ledger, key: string, runAt: int, maxAttempts: int, other: string)
    requires Inv(w, l) && other in After(w, l, Enqueue(key, runAt, maxAttempts)).news
    ensures var next := After(w, l, Enqueue(key, runAt, maxAttempts));
            next.news[other] < next.tick && Accounted(next, other)
  {
    var next := After(w, l, Enqueue(key, runAt, maxAttempts));
    var k := KeyOf(key);
    if k == Some(other) {
      match OpenJob(l.jobs, k) {
        case None => assert Owes(next.jobs[|l.jobs|], other, l.tick);
        case Some(j) => assert Owes(next.jobs[j], other, l.tick);
      }
    } else {
      StillAccounted(l, next, other);
    }
  }

  lemma {:induction false} EnqueueKeepsOnePerKey(l: Ledger, key: string, runAt: int, maxAttempts: int)
    requires OneOpenJobPerKey(l)
    ensures OneOpenJobPerKey(l.(jobs := Enqueued(l.jobs, key, runAt, maxAttempts)))
  {
    var k := KeyOf(key);
    if OpenJob(l.jobs, k).None? && k.Some? {
      forall j | 0 <= j < |l.jobs|
        ensures !(l.jobs[j].Open() && l.jobs[j].key == k)
      {
        NoOpenJob(l.jobs, k, j);
      }
    }
  }

  lemma {:induction false} ClaimKeepsHands(w: Windows, l: Ledger, j: nat, x: nat)
    requires Inv(w, l) && w.limit >= 0 && x in After(w, l, Claim(j)).live
    ensures InHand(w, After(w, l, Claim(j)), x, After(w, l, Claim(j)).live[x])
  {
    if x in l.live {
      assert InHand(w, l, x, l.live[x]);
    }
  }

  lemma {:induction false} ClaimKeepsAccounts(w: Windows, l: Ledger, j: nat, key: string)
    requires Inv(w, l) && key in l.news
    ensures Accounted(After(w, l, Claim(j)), key)
  {
    StillAccounted(l, After(w, l, Claim(j)), key);
  }

  lemma {:induction false} ClaimKeepsInv(w: Windows, l: Ledger, j: nat)
    requires Inv(w, l) && w.limit >= 0
    ensures Inv(w, After(w, l, Claim(j)))
  {
    var next := After(w, l, Claim(j));
    StillOnePerKey(l, next);
    forall x | x in next.live
      ensures InHand(w, next, x, next.live[x])
    {
      ClaimKeepsHands(w, l, j, x);
    }
    forall key | key in next.news
      ensures Accounted(next, key)
    {
      ClaimKeepsAccounts(w, l, j, key);
    }
  }

  lemma {:induction false} FinishKeepsInv(w: Windows, l: Ledger, x: nat, outcome: Outcome)
    requires Inv(w, l) && x in l.live
    ensures Inv(w, After(w, l, Finish(x, outcome)))
  {
    var a := l.live[x];
    var next := After(w, l, Finish(x, outcome));
    assert InHand(w, l, x, a);
    StillOnePerKey(l, next);
    forall y | y in next.live
      ensures InHand(w, next, y, next.live[y])
    {
      assert InHand(w, l, y, l.live[y]);
    }
    forall key | key in next.news
      ensures next.news[key] < next.tick && Accounted(next, key)
    {
      StillAccounted(l, next, key);
    }
  }

  /** The sweep takes back only what no living worker has, because nothing lives that long. */
  lemma {:induction false} ReclaimKeepsInv(w: Windows, l: Ledger)
    requires Inv(w, l) && w.limit <= w.staleAfter
    ensures Inv(w, After(w, l, Reclaim))
  {
    var next := After(w, l, Reclaim);
    StillOnePerKey(l, next);
    forall x | x in next.live
      ensures InHand(w, next, x, next.live[x])
    {
      assert InHand(w, l, x, l.live[x]);
    }
    forall key | key in next.news
      ensures next.news[key] < next.tick && Accounted(next, key)
    {
      StillAccounted(l, next, key);
    }
  }

  lemma {:induction false} CrashKeepsInv(w: Windows, l: Ledger, x: nat)
    requires Inv(w, l)
    ensures Inv(w, After(w, l, Crash(x)))
  {
    var next := After(w, l, Crash(x));
    forall y | y in next.live
      ensures InHand(w, next, y, next.live[y])
    {
      assert InHand(w, l, y, l.live[y]);
    }
    forall key | key in next.news
      ensures Accounted(next, key)
    {
      StillAccounted(l, next, key);
    }
  }

  lemma {:induction false} PruneKeepsAccounts(w: Windows, l: Ledger, j: nat, key: string)
    requires Inv(w, l) && key in l.news
    ensures Accounted(After(w, l, Prune(j)), key)
  {
    StillAccounted(l, After(w, l, Prune(j)), key);
  }

  lemma {:induction false} PruneKeepsInv(w: Windows, l: Ledger, j: nat)
    requires Inv(w, l)
    ensures Inv(w, After(w, l, Prune(j)))
  {
    var next := After(w, l, Prune(j));
    StillOnePerKey(l, next);
    forall x | x in next.live
      ensures InHand(w, next, x, next.live[x])
    {
      assert InHand(w, l, x, l.live[x]);
    }
    forall key | key in next.news
      ensures Accounted(next, key)
    {
      PruneKeepsAccounts(w, l, j, key);
    }
  }

  lemma {:induction false} WaitKeepsInv(w: Windows, l: Ledger, until: int)
    requires Inv(w, l)
    ensures Inv(w, After(w, l, Wait(until)))
  {
    var next := After(w, l, Wait(until));
    forall x | x in next.live
      ensures InHand(w, next, x, next.live[x])
    {
      assert InHand(w, l, x, l.live[x]);
    }
    forall key | key in next.news
      ensures Accounted(next, key)
    {
      StillAccounted(l, next, key);
    }
  }

  lemma {:induction false} StepKeepsInv(w: Windows, l: Ledger, step: Step)
    requires Inv(w, l) && 0 <= w.limit <= w.staleAfter
    ensures Inv(w, After(w, l, step))
  {
    match step {
      case Enqueue(key, runAt, maxAttempts) => EnqueueKeepsInv(w, l, key, runAt, maxAttempts);
      case Claim(j) => ClaimKeepsInv(w, l, j);
      case Finish(x, outcome) =>
        if x in l.live {
          FinishKeepsInv(w, l, x, outcome);
        } else {
          CrashKeepsInv(w, l, x);
          assert l.live - {x} == l.live;
        }
      case Reclaim => ReclaimKeepsInv(w, l);
      case Crash(x) => CrashKeepsInv(w, l, x);
      case Prune(j) => PruneKeepsInv(w, l, j);
      case Wait(until) => WaitKeepsInv(w, l, until);
    }
  }

  lemma {:induction false} RunKeepsInv(w: Windows, steps: seq<Step>)
    requires 0 <= w.limit <= w.staleAfter
    ensures Inv(w, Run(w, EMPTY, steps))
  {
    if steps != [] {
      RunKeepsInv(w, steps[..|steps| - 1]);
      StepKeepsInv(w, Run(w, EMPTY, steps[..|steps| - 1]), steps[|steps| - 1]);
    }
  }

  // -------------------------------------------- exactly when the promises hold

  lemma {:induction false} Grown(w: Windows, l: Ledger, steps: seq<Step>, step: Step)
    ensures Run(w, l, steps + [step]) == After(w, Run(w, l, steps), step)
  {
    assert (steps + [step])[..|steps|] == steps;
  }

  /** One job, announced as "k", and its first attempt. */
  lemma {:induction false} AnAttemptIsInHand(w: Windows) returns (steps: seq<Step>)
    ensures var l := Run(w, EMPTY, steps);
            && l.jobs == [NewJob("k", 0, 0).(status := Processing, attempts := 1, lockedAt := Some(0), stamp := 2)]
            && l.live == map[2 := Attempt(0, 0, 1, DEFAULT_MAX_ATTEMPTS)]
            && l.clock == 0 && l.tick == 3 && l.news == map["k" := 1] && l.read == map[]
  {
    assert Trim("k") == "k";
    var one := [Enqueue("k", 0, 0)];
    var l1 := After(w, EMPTY, Enqueue("k", 0, 0));
    assert l1.jobs == [NewJob("k", 0, 0)];
    Grown(w, EMPTY, [], Enqueue("k", 0, 0));
    assert [] + one == one;
    assert Run(w, EMPTY, one) == l1;
    steps := one + [Claim(0)];
    Grown(w, EMPTY, one, Claim(0));
  }

  /** It outlives its lock, and the sweep takes the row back. */
  lemma {:induction false} AnAttemptOutlivesItsLock(w: Windows) returns (steps: seq<Step>)
    requires 0 <= w.staleAfter < w.limit
    ensures var l := Run(w, EMPTY, steps);
            && l.jobs == [NewJob("k", 0, 0).(attempts := 1, stamp := 2)]
            && l.live == map[2 := Attempt(0, 0, 1, DEFAULT_MAX_ATTEMPTS)]
            && l.clock == w.staleAfter + 1 && l.tick == 5 && l.news == map["k" := 1] && l.read == map[]
  {
    var late := w.staleAfter + 1;
    var two := AnAttemptIsInHand(w);
    var three := two + [Wait(late)];
    Grown(w, EMPTY, two, Wait(late));
    var l3 := Run(w, EMPTY, three);
    assert l3.clock == late && l3.jobs[0].Stale(late - w.staleAfter);
    steps := three + [Reclaim];
    Grown(w, EMPTY, three, Reclaim);
  }

  /** A second attempt joins it. */
  lemma {:induction false} ASecondAttemptJoins(w: Windows) returns (steps: seq<Step>)
    requires 0 <= w.staleAfter < w.limit
    ensures var l := Run(w, EMPTY, steps);
            && |l.jobs| == 1 && l.jobs[0].key == Some("k") && l.jobs[0].status.Processing? && !l.jobs[0].rerun
            && l.live == map[2 := Attempt(0, 0, 1, DEFAULT_MAX_ATTEMPTS),
                             6 := Attempt(0, l.clock, 2, DEFAULT_MAX_ATTEMPTS)]
            && l.news == map["k" := 5] && l.read == map[] && l.tick == 7
  {
    assert Trim("k") == "k";
    var four := AnAttemptOutlivesItsLock(w);
    var l4 := Run(w, EMPTY, four);
    var five := four + [Enqueue("k", 0, 0)];
    Grown(w, EMPTY, four, Enqueue("k", 0, 0));
    assert OpenJob(l4.jobs, Some("k")) == Some(0);
    var l5 := Run(w, EMPTY, five);
    assert l5.jobs == l4.jobs && l5.news == map["k" := 5];
    steps := five + [Claim(0)];
    Grown(w, EMPTY, five, Claim(0));
  }

  /** And its own late answer then buries the second announcement. */
  lemma {:induction false} LateAnswerBuriesTheNews(w: Windows) returns (steps: seq<Step>)
    requires 0 <= w.staleAfter < w.limit
    ensures !NothingLost(Run(w, EMPTY, steps))
  {
    var six := ASecondAttemptJoins(w);
    var l6 := Run(w, EMPTY, six);
    var seven := six + [Finish(2, Succeeded)];
    Grown(w, EMPTY, six, Finish(2, Succeeded));
    var l7 := Run(w, EMPTY, seven);
    assert |l7.jobs| == 1 && l7.jobs[0].status.Done? && l7.read == map["k" := 2] && l7.news == map["k" := 5];
    steps := seven + [Crash(6)];
    Grown(w, EMPTY, seven, Crash(6));
    assert !Accounted(Run(w, EMPTY, steps), "k");
  }

  ghost predicate AlwaysPromises(w: Windows) {
    forall steps :: Promises(Run(w, EMPTY, steps))
  }

  /**
   No announced event is lost, no two attempts at one job overlap and no key has two open jobs, over
   every run, exactly when an attempt cannot outlast the window its lock is left alone for.
   */
  lemma {:induction false} PromisesHoldExactlyWhenAttemptsFit(w: Windows)
    requires 0 <= w.limit && 0 <= w.staleAfter
    ensures AlwaysPromises(w) <==> w.limit <= w.staleAfter
  {
    if w.limit <= w.staleAfter {
      forall steps
        ensures Promises(Run(w, EMPTY, steps))
      {
        RunKeepsInv(w, steps);
        InvKeepsPromises(w, Run(w, EMPTY, steps));
      }
    } else {
      var steps := LateAnswerBuriesTheNews(w);
      assert !Promises(Run(w, EMPTY, steps));
    }
  }

  const SECOND := 1_000_000_000
  const FINALIZATION := 10 * SECOND

  /** The worker's windows: five minutes, or twice the attempt's own limit if that is not shorter. */
  method NewWorker(jobTimeout: int) returns (staleAfter: int, timeout: int)
    ensures timeout == if jobTimeout > 0 then jobTimeout else 120 * SECOND
    ensures staleAfter == if timeout < 300 * SECOND then 300 * SECOND else 2 * timeout
    ensures staleAfter > timeout > 0
  {
    staleAfter, timeout := 300 * SECOND, 120 * SECOND;
    if jobTimeout > 0 {
      timeout := jobTimeout;
    }
    if staleAfter <= timeout {
      staleAfter := 2 * timeout;
    }
  }

  /**
   The guard compares the handler's limit with the window and forgets the ten seconds the
   bookkeeping may take after it: the promises fail for limits between 290 and 300 seconds, and for
   no others.
   */
  lemma {:induction false} TheGuardForgetsTheBookkeeping(timeout: int, staleAfter: int)
    requires timeout > 0 && staleAfter == if timeout < 300 * SECOND then 300 * SECOND else 2 * timeout
    ensures AlwaysPromises(Windows(timeout + FINALIZATION, staleAfter)) <==> !(290 * SECOND < timeout < 300 * SECOND)
  {
    PromisesHoldExactlyWhenAttemptsFit(Windows(timeout + FINALIZATION, staleAfter));
  }

  /** One job, waiting, due, and nobody running. */
  ghost predicate Waiting(l: Ledger, attempts: nat) {
    && |l.jobs| == 1 && l.jobs[0].status.Pending? && l.jobs[0].attempts == attempts
    && l.jobs[0].maxAttempts == DEFAULT_MAX_ATTEMPTS && l.jobs[0].runAt <= l.clock && l.live == map[]
  }

  /** Claimed, its worker killed, and given up by the sweep. */
  ghost function Crashed(w: Windows, l: Ledger): Ledger {
    After(w, After(w, l, Claim(0)), Crash(l.tick))
  }

  lemma {:induction false} CrashedIsStale(w: Windows, l: Ledger, attempts: nat, until: int)
    requires 0 <= w.staleAfter && Waiting(l, attempts) && until == l.clock + w.staleAfter + 1
    ensures Waiting(After(w, After(w, Crashed(w, l), Wait(until)), Reclaim), attempts + 1)
  {
    var l2 := Crashed(w, l);
    assert l2.live == map[] && l2.jobs[0] == l.jobs[0].Locked(l.clock, l.tick);
    assert After(w, l2, Wait(until)) == l2.(clock := until, tick := l2.tick + 1);
    assert l2.jobs[0].Stale(until - w.staleAfter);
  }

  lemma {:induction false} OneMoreCrash(w: Windows, before: seq<Step>, attempts: nat) returns (steps: seq<Step>)
    requires 0 <= w.staleAfter
    requires Waiting(Run(w, EMPTY, before), attempts)
    ensures Waiting(Run(w, EMPTY, steps), attempts + 1)
    ensures |steps| == |before| + 4 && steps[..|before|] == before
    ensures forall k | |before| <= k < |steps| :: !steps[k].Finish?
  {
    var l := Run(w, EMPTY, before);
    var until := l.clock + w.staleAfter + 1;
    Grown(w, EMPTY, before, Claim(0));
    var one := before + [Claim(0)];
    Grown(w, EMPTY, one, Crash(l.tick));
    var two := one + [Crash(l.tick)];
    Grown(w, EMPTY, two, Wait(until));
    var three := two + [Wait(until)];
    Grown(w, EMPTY, three, Reclaim);
    steps := three + [Reclaim];
    CrashedIsStale(w, l, attempts, until);
  }

  lemma {:induction false} StillNoReport(w: Windows, before: seq<Step>, more: seq<Step>)
    requires NoReport(w, before, 0) && forall k | 0 <= k < |more| :: !more[k].Finish?
    ensures NoReport(w, before + more, 0)
  {
    forall k | 0 <= k < |before + more|
      ensures !Reports(Run(w, EMPTY, (before + more)[..k]), (before + more)[k], 0)
    {
      if k < |before| {
        assert (before + more)[..k] == before[..k];
      }
    }
  }

  /** And for any number of attempts there is such a run after which the job still waits for one more. */
  lemma {:induction false} AsManyCrashesAsYouLike(w: Windows, n: nat) returns (steps: seq<Step>)
    requires 0 <= w.staleAfter
    ensures Waiting(Run(w, EMPTY, steps), n) && NoReport(w, steps, 0)
  {
    if n == 0 {
      steps := [Enqueue("", 0, 0)];
      assert steps[..0] == [];
    } else {
      var before := AsManyCrashesAsYouLike(w, n - 1);
      steps := OneMoreCrash(w, before, n - 1);
      StillNoReport(w, before, steps[|before|..]);
      assert before + steps[|before|..] == steps;
    }
  }

  // --------------------------------------------------- when a job is parked

  /** A worker reports that an attempt at job `j` failed for good, or failed with no attempts left. */
  ghost predicate Parks(l: Ledger, step: Step, j: nat) {
    && step.Finish? && step.attempt in l.live && l.live[step.attempt].job == j
    && (step.outcome.FailedForGood?
        || (step.outcome.Failed? && l.live[step.attempt].attempts >= l.live[step.attempt].maxAttempts))
  }

  ghost predicate IsDead(l: Ledger, j: nat) { j < |l.jobs| && l.jobs[j].status.Dead? }

  /** A job becomes dead by such a report and by nothing else: no claim, crash or sweep ever parks one. */
  lemma {:induction false} ParkedExactlyByAReport(w: Windows, l: Ledger, step: Step, j: nat)
    requires !IsDead(l, j)
    ensures IsDead(After(w, l, step), j) <==> j < |l.jobs| && Parks(l, step, j)
  {
    match step {
      case Enqueue(key, runAt, maxAttempts) =>
        if OpenJob(l.jobs, KeyOf(key)).Some? {
          assert l.jobs[OpenJob(l.jobs, KeyOf(key)).value].Open();
        }
      case Finish(x, outcome) =>
        if x in l.live && l.live[x].job < |l.jobs| {
          var a := l.live[x];
          assert After(w, l, step).jobs[a.job] == Recorded(l.jobs[a.job], a, outcome, l.clock, l.tick);
        }
      case _ =>
    }
  }

  /** Over any run, a job is dead only if some step of it was such a report. */
  lemma {:induction false} DeadOnlyByAReport(w: Windows, steps: seq<Step>, j: nat) returns (k: nat)
    requires IsDead(Run(w, EMPTY, steps), j)
    ensures k < |steps| && Parks(Run(w, EMPTY, steps[..k]), steps[k], j)
  {
    var n := |steps| - 1;
    if IsDead(Run(w, EMPTY, steps[..n]), j) {
      k := DeadOnlyByAReport(w, steps[..n], j);
      assert steps[..n][..k] == steps[..k];
    } else {
      k := n;
      ParkedExactlyByAReport(w, Run(w, EMPTY, steps[..n]), steps[n], j);
    }
  }

  /** No attempt at job `j` ever reports back: each ends in a crash, or is given up by the sweep. */
  ghost predicate NoReport(w: Windows, steps: seq<Step>, j: nat) {
    forall k | 0 <= k < |steps| :: !Reports(Run(w, EMPTY, steps[..k]), steps[k], j)
  }

  ghost predicate Reports(l: Ledger, step: Step, j: nat) {
    step.Finish? && step.attempt in l.live && l.live[step.attempt].job == j
  }

  /**
   A job whose every attempt kills its worker is never parked, however many attempts it has had: they
   are counted, but only a worker that reports back compares them with the most it may have.
   */
  lemma {:induction false} CrashLoopNeverParks(w: Windows, steps: seq<Step>, j: nat)
    requires NoReport(w, steps, j)
    ensures !IsDead(Run(w, EMPTY, steps), j)
  {
    if steps != [] {
      var n := |steps| - 1;
      NoReportBefore(w, steps, j, n);
      CrashLoopNeverParks(w, steps[..n], j);
      ParkedExactlyByAReport(w, Run(w, EMPTY, steps[..n]), steps[n], j);
    }
  }

  lemma {:induction false} NoReportBefore(w: Windows, steps: seq<Step>, j: nat, n: nat)
    requires NoReport(w, steps, j) && n < |steps|
    ensures NoReport(w, steps[..n], j) && !Reports(Run(w, EMPTY, steps[..n]), steps[n], j)
  {
    forall k | 0 <= k < n
      ensures !Reports(Run(w, EMPTY, steps[..n][..k]), steps[..n][k], j)
    {
      assert steps[..n][..k] == steps[..k];
    }
  }

  // ---------------------------------------------------------------- backoff

  function Pow2(n: nat): nat { if n == 0 then 1 else 2 * Pow2(n - 1) }

  function Least(a: int, b: int): int { if a <= b then a else b }

  lemma {:induction false} Pow2Grows(m: nat, n: nat)
    requires m <= n
    ensures Pow2(m) <= Pow2(n)
  {
    if m < n {
      Pow2Grows(m, n - 1);
    }
  }

  /** Doubling from five seconds, stopped at five minutes. */
  method Backoff(attempts: int) returns (delay: int)
    ensures delay == if attempts <= 1 then 5 * SECOND
                     else Least(5 * SECOND * Pow2(attempts - 1), 300 * SECOND)
  {
    delay := 5 * SECOND;
    var i := 1;
    while i < attempts && delay < 300 * SECOND
      invariant 1 <= i && (attempts <= 1 ==> i == 1)
      invariant attempts > 1 ==> i <= attempts
      invariant delay == 5 * SECOND * Pow2(i - 1)
    {
      delay := delay * 2;
      i := i + 1;
    }
    if attempts > 1 {
      Pow2Grows(i - 1, attempts - 1);
    }
    if delay > 300 * SECOND {
      delay := 300 * SECOND;
    }
  }

  /** The spread is drawn from what is left of half the delay, thirty seconds at most, and only ever added. */
  method Jitter(delay: int, draw: nat) returns (r: int)
    ensures delay <= 0 ==> r == delay
    ensures delay > 0 ==> delay <= r <= delay + Least(delay / 2, 30 * SECOND)
  {
    if delay <= 0 {
      return delay;
    }
    var spread := Least(delay / 2, 30 * SECOND);
    if spread <= 0 {
      return delay;
    }
    r := delay + draw % (spread + 1);
  }

  /** A provider's own pacing wins over the curve, and neither is ever undercut. */
  method RetryDelay(retryAfter: Option<int>, attempts: int, draw: nat) returns (r: int)
    ensures retryAfter.Some? && retryAfter.value > 0 ==>
              retryAfter.value <= r <= retryAfter.value + 30 * SECOND
    ensures !(retryAfter.Some? && retryAfter.value > 0) ==> 5 * SECOND <= r <= 330 * SECOND
  {
    if retryAfter.Some? && retryAfter.value > 0 {
      r := Jitter(retryAfter.value, draw);
    } else {
      var delay := Backoff(attempts);
      if attempts > 1 {
        Pow2Grows(0, attempts - 1);
      }
      r := Jitter(delay, draw);
    }
  }

  // -------------------------------------------------------------- the table

  /** A waiting or running job of the key. */
  predicate IsOpenFor(job: Job, key: string) {
    job.key == Some(key) && (job.status.Pending? || job.status.Processing?)
  }

  /** A claimed row: running, locked now, one more attempt spent, and otherwise as it waited. */
  predicate IsClaimOf(claimed: Job, was: Job, now: int, tick: nat) {
    && claimed.status.Processing? && claimed.lockedAt == Some(now) && claimed.attempts == was.attempts + 1
    && claimed.key == was.key && claimed.maxAttempts == was.maxAttempts && claimed.runAt == was.runAt
    && claimed.rerun == was.rerun && claimed.stamp == tick
  }

  /** The rows claimed, each once, were all waiting and are now locked in turn; no other row is touched. */
  ghost predicate Locks(was: seq<Job>, jobs: seq<Job>, claimed: seq<nat>, now: int, tick: nat) {
    && |jobs| == |was|
    && (forall k | 0 <= k < |claimed| ::
          && claimed[k] < |was| && was[claimed[k]].status.Pending? && was[claimed[k]].runAt <= now
          && IsClaimOf(jobs[claimed[k]], was[claimed[k]], now, tick + k))
    && (forall j | 0 <= j < |was| && j !in claimed :: jobs[j] == was[j])
    && (forall i, k | 0 <= i < k < |claimed| :: claimed[i] != claimed[k])
  }

  /** Every waiting row listed is claimed. */
  ghost predicate NonePassed(was: seq<Job>, order: seq<nat>, claimed: seq<nat>, now: int) {
    forall i | 0 <= i < |order| && order[i] < |was| && was[order[i]].status.Pending? && was[order[i]].runAt <= now ::
      order[i] in claimed
  }

  lemma {:induction false} LocksOneMore(was: seq<Job>, jobs: seq<Job>, claimed: seq<nat>, j: nat, job: Job, now: int, tick: nat)
    requires Locks(was, jobs, claimed, now, tick)
    requires j < |jobs| && jobs[j].status.Pending? && jobs[j].runAt <= now
    requires IsClaimOf(job, jobs[j], now, tick + |claimed|)
    ensures j !in claimed && Locks(was, jobs[j := job], claimed + [j], now, tick)
  {
    forall k | 0 <= k < |claimed|
      ensures claimed[k] != j
    {
      assert IsClaimOf(jobs[claimed[k]], was[claimed[k]], now, tick + k);
    }
    assert forall c :: c in claimed + [j] <==> c in claimed || c == j;
  }

  /** The table of jobs, and the statements that change it. */
  class JobTable {
    var jobs: seq<Job>

    constructor ()
      ensures jobs == []
    {
      jobs := [];
    }

    method Enqueue(key: string, runAt: int, maxAttempts: int) returns (added: bool)
      modifies this
      ensures jobs == Enqueued(old(jobs), key, runAt, maxAttempts)
      ensures added <==> Trim(key) == "" || forall j | 0 <= j < |old(jobs)| :: !IsOpenFor(old(jobs)[j], Trim(key))
      ensures added ==>
                jobs == old(jobs) + [Job(if Trim(key) == "" then None else Some(Trim(key)), Pending, 0,
                                         if maxAttempts <= 0 then 8 else maxAttempts, runAt, false, None, 0)]
      ensures !added ==>
                exists j | 0 <= j < |old(jobs)| && IsOpenFor(old(jobs)[j], Trim(key)) ::
                  jobs == old(jobs)[j := old(jobs)[j].(rerun := old(jobs)[j].rerun || old(jobs)[j].status.Processing?)]
    {
      var k := KeyOf(key);
      var attempts := if maxAttempts <= 0 then DEFAULT_MAX_ATTEMPTS else maxAttempts;
      if k.Some? {
        var j := |jobs|;
        TakeAll(jobs);
        while j > 0
          invariant 0 <= j <= |jobs| && OpenJob(jobs, k) == OpenJob(jobs[..j], k)
          invariant jobs == old(jobs) && forall i | j <= i < |jobs| :: !IsOpenFor(jobs[i], Trim(key))
        {
          j := j - 1;
          assert jobs[..j + 1][..j] == jobs[..j];
          if jobs[j].Open() && jobs[j].key == k {
            assert IsOpenFor(jobs[j], Trim(key));
            if jobs[j].status.Processing? {
              jobs := jobs[j := jobs[j].(rerun := true)];
            }
            return false;
          }
        }
      }
      jobs := jobs + [Job(k, Pending, 0, attempts, runAt, false, None, 0)];
      return true;
    }

    /** A redelivered message names a job that is no longer waiting, and claims nothing. */
    method ClaimByID(j: nat, now: int, tick: nat) returns (claimed: Option<Job>)
      modifies this
      ensures claimed.Some? <==> j < |old(jobs)| && old(jobs)[j].Due(now)
      ensures claimed.Some? <==> j < |old(jobs)| && old(jobs)[j].status.Pending? && old(jobs)[j].runAt <= now
      ensures jobs == if claimed.Some? then old(jobs)[j := claimed.value] else old(jobs)
      ensures claimed.Some? ==> claimed.value == old(jobs)[j].Locked(now, tick)
      ensures claimed.Some? ==> IsClaimOf(claimed.value, old(jobs)[j], now, tick)
    {
      if j < |jobs| && jobs[j].status.Pending? && jobs[j].runAt <= now {
        var job := jobs[j].(status := Processing, attempts := jobs[j].attempts + 1, lockedAt := Some(now), stamp := tick);
        jobs := jobs[j := job];
        return Some(job);
      }
      return None;
    }

    /**
     Locks the due jobs among those this worker got to first, in the order they fell due, up to `limit`:
     all of those it looked at, and it looks on until it has as many as it may take.
     */
    method Claim(order: seq<nat>, limit: int, now: int, tick: nat) returns (claimed: seq<nat>, looked: nat)
      modifies this
      ensures Locks(old(jobs), jobs, claimed, now, tick)
      ensures looked <= |order| && (forall c | c in claimed :: c in order[..looked])
      ensures NonePassed(old(jobs), order[..looked], claimed, now)
      ensures |claimed| <= if limit <= 0 then 10 else limit
      ensures |claimed| < (if limit <= 0 then 10 else limit) ==> looked == |order|
    {
      var most := if limit <= 0 then 10 else limit;
      claimed, looked := [], 0;
      while looked < |order| && |claimed| < most
        invariant looked <= |order| && Locks(old(jobs), jobs, claimed, now, tick) && |claimed| <= most
        invariant forall c | c in claimed :: c in order[..looked]
        invariant NonePassed(old(jobs), order[..looked], claimed, now)
      {
        ghost var before := jobs;
        var got := ClaimByID(order[looked], now, tick + |claimed|);
        assert order[..looked + 1] == order[..looked] + [order[looked]];
        if got.Some? {
          LocksOneMore(old(jobs), before, claimed, order[looked], got.value, now, tick);
          assert forall c :: c in claimed + [order[looked]] <==> c in claimed || c == order[looked];
          claimed := claimed + [order[looked]];
        }
        looked := looked + 1;
      }
    }

    /** Done, unless a duplicate arrived meanwhile: then straight back for one more run. */
    method Complete(j: nat, now: int) returns (found: bool)
      modifies this
      ensures found <==> j < |old(jobs)|
      ensures jobs == if found then old(jobs)[j := old(jobs)[j].Completed(now)] else old(jobs)
      ensures found && !old(jobs)[j].rerun ==> jobs[j] == old(jobs)[j].(status := Done, lockedAt := None)
      ensures found && old(jobs)[j].rerun ==>
                jobs[j] == old(jobs)[j].(status := Pending, runAt := now, attempts := 0, rerun := false, lockedAt := None)
    {
      if j >= |jobs| {
        return false;
      }
      var job := jobs[j];
      jobs := jobs[j := job.(status := if job.rerun then Pending else Done,
                             runAt := if job.rerun then now else job.runAt,
                             attempts := if job.rerun then 0 else job.attempts,
                             rerun := false,
                             lockedAt := None)];
      return true;
    }

    method Retry(j: nat, runAt: int) returns (found: bool)
      modifies this
      ensures found <==> j < |old(jobs)|
      ensures jobs == if found then old(jobs)[j := old(jobs)[j].Retried(runAt)] else old(jobs)
      ensures found ==> jobs[j] == old(jobs)[j].(status := Pending, runAt := runAt, rerun := false, lockedAt := None)
    {
      if j >= |jobs| {
        return false;
      }
      jobs := jobs[j := jobs[j].(status := Pending, runAt := runAt, rerun := false, lockedAt := None)];
      return true;
    }

    method Kill(j: nat, tick: nat) returns (found: bool)
      modifies this
      ensures found <==> j < |old(jobs)|
      ensures jobs == if found then old(jobs)[j := old(jobs)[j].Parked(tick)] else old(jobs)
      ensures found ==> jobs[j] == old(jobs)[j].(status := Dead, rerun := false, lockedAt := None, stamp := tick)
    {
      if j >= |jobs| {
        return false;
      }
      jobs := jobs[j := jobs[j].(status := Dead, rerun := false, lockedAt := None, stamp := tick)];
      return true;
    }

    method ReclaimStale(olderThan: int) returns (count: nat)
      modifies this
      ensures jobs == Swept(old(jobs), olderThan)
      ensures count == 0 ==> jobs == old(jobs)
      ensures forall i | 0 <= i < |jobs| ::
                var was := old(jobs)[i];
                jobs[i] == if was.status.Processing? && was.lockedAt.Some? && was.lockedAt.value < olderThan
                           then was.(status := Pending, lockedAt := None) else was
    {
      count := 0;
      var before := jobs;
      for j := 0 to |before|
        invariant |jobs| == |before|
        invariant forall i | 0 <= i < |before| ::
                    jobs[i] == if i < j && before[i].Stale(olderThan) then before[i].Reclaimed() else before[i]
        invariant count == 0 ==> jobs == before
      {
        var job := jobs[j];
        if job.status.Processing? && job.lockedAt.Some? && job.lockedAt.value < olderThan {
          jobs := jobs[j := job.(status := Pending, lockedAt := None)];
          count := count + 1;
        }
      }
    }

    /** The worker writes down how an attempt ended. */
    method Record(a: Attempt, outcome: Outcome, now: int, tick: nat)
      requires a.job < |jobs|
      modifies this
      ensures jobs == old(jobs)[a.job := Recorded(old(jobs)[a.job], a, outcome, now, tick)]
      ensures jobs[a.job].status ==
                if outcome.Succeeded? then if old(jobs)[a.job].rerun then Pending else Done
                else if outcome.FailedForGood? || a.attempts >= a.maxAttempts then Dead else Pending
      ensures outcome.Failed? && a.attempts < a.maxAttempts ==>
                jobs[a.job].runAt == now + outcome.delay && jobs[a.job].attempts == old(jobs)[a.job].attempts
    {
      var found;
      match outcome {
        case Succeeded => found := Complete(a.job, now);
        case FailedForGood => found := Kill(a.job, tick);
        case Failed(delay) =>
          if a.attempts >= a.maxAttempts {
            found := Kill(a.job, tick);
          } else {
            found := Retry(a.job, now + delay);
          }
      }
    }
  }
}
