/** What every step of the protocol keeps about the queue: whatever the queue ever accepted is still
    in it, or its work is done or handed on. */
module QueueInvariant {
  import opened JobKeys
  import opened Queues
  import opened Bisection
  import opened Ingestion

  ghost predicate Fits(s: State, key: JobKey, target: Target) {
    match key
    case BlockKey(h) => target == Ingest(h)
    case RangeKey(a, b) => target == Verify(a, b)
    case AutoKey(n) => n < s.nextAuto
  }

  ghost predicate RangeAccepted(s: State, r: Range) {
    RangeKey(r.from, r.to) in s.accepted
  }

  /** The work a job stands for is done, or was handed on to jobs the queue accepted. */
  ghost predicate Discharged(s: State, t: Target) {
    match t
    case Ingest(h) => h in s.blocks
    case Verify(a, b) =>
      var r := Range(a, b);
      || !Absent(s.blocks, r)
      || (Span(r) <= LEAF_SPAN && forall h :: a <= h <= b ==> BlockKey(h) in s.accepted)
      || (Span(r) > LEAF_SPAN && RangeAccepted(s, Left(r)) && RangeAccepted(s, Right(r)))
  }

  ghost predicate Settled(s: State, key: JobKey)
    requires key in s.accepted
  {
    (key in s.jobs && !s.jobs[key].status.Completed?) || Discharged(s, s.accepted[key])
  }

  ghost predicate QueueOk(s: State) {
    && (forall k :: k in s.jobs ==> k in s.accepted && s.jobs[k].target == s.accepted[k])
    && (forall k :: k in s.accepted ==> Fits(s, k, s.accepted[k]))
    && (forall k :: k in s.accepted ==> Settled(s, k))
  }

  ghost predicate AttemptOk(s: State, a: Attempt) {
    && a.key in s.accepted && s.accepted[a.key] == a.target
    && match a.progress
       case Begun => true
       case SawNoBlock => a.target.Ingest?
       case SavedBlock => a.target.Ingest? && a.target.height in s.blocks
       case MustDispatch => a.target.Verify? && Span(TargetRange(a.target)) <= LEAF_SPAN
       case MustSplit => a.target.Verify? && Span(TargetRange(a.target)) > LEAF_SPAN
       case AddedFirst =>
         && a.target.Verify?
         && Span(TargetRange(a.target)) > LEAF_SPAN
         && RangeAccepted(s, Left(TargetRange(a.target)))
       case Finished => Discharged(s, a.target)
  }

  ghost predicate AttemptsOk(s: State) {
    forall i :: 0 <= i < |s.attempts| ==> AttemptOk(s, s.attempts[i])
  }

  /** Nothing stored or accepted is ever lost. */
  ghost predicate Extends(s: State, u: State) {
    && s.blocks <= u.blocks
    && s.nextAuto <= u.nextAuto
    && forall k :: k in s.accepted ==> k in u.accepted && u.accepted[k] == s.accepted[k]
  }

  lemma DischargedStays(s: State, u: State, t: Target)
    requires Extends(s, u) && Discharged(s, t)
    ensures Discharged(u, t)
  {
  }

  lemma AttemptsStayOk(s: State, u: State)
    requires Extends(s, u) && AttemptsOk(s) && u.attempts == s.attempts
    ensures AttemptsOk(u)
  {
    forall i | 0 <= i < |u.attempts|
      ensures AttemptOk(u, u.attempts[i])
    {
      assert AttemptOk(s, s.attempts[i]);
      if s.attempts[i].progress.Finished? {
        DischargedStays(s, u, s.attempts[i].target);
      }
    }
  }

  lemma QueueStaysOk(s: State, u: State)
    requires QueueOk(s) && Extends(s, u) && u.accepted == s.accepted
    requires forall k :: k in u.jobs ==> k in s.jobs && u.jobs[k].target == s.jobs[k].target
    requires forall k :: k in s.jobs && k !in u.jobs ==> s.jobs[k].status.Completed?
    requires forall k :: k in u.jobs && u.jobs[k].status.Completed?
                         ==> s.jobs[k].status.Completed? || Discharged(u, s.accepted[k])
    ensures QueueOk(u)
  {
    forall k | k in u.accepted
      ensures Settled(u, k) && Fits(u, k, u.accepted[k])
    {
      assert Settled(s, k) && Fits(s, k, s.accepted[k]);
      if Discharged(s, s.accepted[k]) {
        DischargedStays(s, u, s.accepted[k]);
      }
    }
  }

  lemma AddJobOk(s: State, key: JobKey, target: Target, attempts: nat, priority: Priority)
    requires QueueOk(s) && Fits(s, key, target)
    requires key.AutoKey? ==> key !in s.accepted
    ensures var u := AddJob(s, key, target, attempts, priority);
            QueueOk(u) && Extends(s, u) && key in u.accepted
  {
    var u := AddJob(s, key, target, attempts, priority);
    assert Extends(s, u) by {
      if key in s.accepted {
        assert Fits(s, key, s.accepted[key]);
      }
    }
    forall k | k in u.accepted
      ensures Settled(u, k) && Fits(u, k, u.accepted[k])
    {
      if k in s.accepted {
        assert Settled(s, k) && Fits(s, k, s.accepted[k]);
        if Discharged(s, s.accepted[k]) {
          DischargedStays(s, u, s.accepted[k]);
        }
      }
    }
  }

  lemma {:induction false} AddBlockJobsOk(s: State, first: int, last: int)
    requires QueueOk(s)
    ensures var u := AddBlockJobs(s, first, last);
            && QueueOk(u) && Extends(s, u)
            && (forall h :: first <= h <= last ==> BlockKey(h) in u.accepted)
    decreases last - first
  {
    if first <= last {
      var before := AddBlockJobs(s, first, last - 1);
      AddBlockJobsOk(s, first, last - 1);
      AddJobOk(before, BlockKey(last), Ingest(last), MAX_ATTEMPTS, Low);
    }
  }

  /** A queue operation m followed by a change of the i-th attempt only. */
  lemma AttemptMoves(s: State, m: State, u: State, i: nat)
    requires AttemptsOk(s) && QueueOk(m) && Extends(s, m) && m.attempts == s.attempts
    requires i < |s.attempts| == |u.attempts|
    requires u == m.(attempts := u.attempts) && u.attempts == s.attempts[i := u.attempts[i]]
    requires AttemptOk(u, u.attempts[i])
    ensures QueueOk(u) && AttemptsOk(u) && Extends(s, u)
  {
    QueueStaysOk(m, u);
    forall j | 0 <= j < |u.attempts|
      ensures AttemptOk(u, u.attempts[j])
    {
      if j != i {
        assert AttemptOk(s, s.attempts[j]);
        if s.attempts[j].progress.Finished? {
          DischargedStays(s, u, s.attempts[j].target);
        }
      }
    }
  }

  ghost predicate Kept(s: State, u: State) {
    QueueOk(u) && AttemptsOk(u) && Extends(s, u)
  }

  lemma LookKeeps(s: State, i: nat)
    requires QueueOk(s) && AttemptsOk(s) && Enabled(s, Look(i))
    ensures Kept(s, Apply(s, Look(i)))
  {
    assert AttemptOk(s, s.attempts[i]);
    AttemptMoves(s, s, Apply(s, Look(i)), i);
  }

  lemma SaveBlockKeeps(s: State, i: nat)
    requires QueueOk(s) && AttemptsOk(s) && Enabled(s, SaveBlock(i))
    ensures Kept(s, Apply(s, SaveBlock(i)))
  {
    assert AttemptOk(s, s.attempts[i]);
    var m := s.(blocks := s.blocks + {s.attempts[i].target.height});
    QueueStaysOk(s, m);
    AttemptMoves(s, m, Apply(s, SaveBlock(i)), i);
  }

  lemma SaveTxsKeeps(s: State, i: nat)
    requires QueueOk(s) && AttemptsOk(s) && Enabled(s, SaveTxs(i))
    ensures Kept(s, Apply(s, SaveTxs(i)))
  {
    assert AttemptOk(s, s.attempts[i]);
    var u := Apply(s, SaveTxs(i));
    var m := s.(txs := u.txs);
    QueueStaysOk(s, m);
    AttemptMoves(s, m, u, i);
  }

  lemma CountKeeps(s: State, i: nat)
    requires QueueOk(s) && AttemptsOk(s) && Enabled(s, Count(i))
    ensures Kept(s, Apply(s, Count(i)))
  {
    assert AttemptOk(s, s.attempts[i]);
    MissingIsAbsence(s.blocks, TargetRange(s.attempts[i].target));
    AttemptMoves(s, s, Apply(s, Count(i)), i);
  }

  lemma DispatchAllKeeps(s: State, i: nat)
    requires QueueOk(s) && AttemptsOk(s) && Enabled(s, DispatchAll(i))
    ensures Kept(s, Apply(s, DispatchAll(i)))
  {
    assert AttemptOk(s, s.attempts[i]);
    var t := s.attempts[i].target;
    AddBlockJobsOk(s, t.from, t.to);
    AttemptMoves(s, AddBlockJobs(s, t.from, t.to), Apply(s, DispatchAll(i)), i);
  }

  lemma AddRangeJobOk(s: State, r: Range)
    requires QueueOk(s)
    ensures QueueOk(AddRangeJob(s, r)) && Extends(s, AddRangeJob(s, r)) && RangeAccepted(AddRangeJob(s, r), r)
  {
    AddJobOk(s, RangeKey(r.from, r.to), Verify(r.from, r.to), MAX_ATTEMPTS, Unset);
  }

  lemma AddFirstKeeps(s: State, i: nat)
    requires QueueOk(s) && AttemptsOk(s) && Enabled(s, AddFirst(i))
    ensures Kept(s, Apply(s, AddFirst(i)))
  {
    assert AttemptOk(s, s.attempts[i]);
    var q := Left(TargetRange(s.attempts[i].target));
    AddRangeJobOk(s, q);
    AttemptMoves(s, AddRangeJob(s, q), Apply(s, AddFirst(i)), i);
  }

  lemma AddSecondKeeps(s: State, i: nat)
    requires QueueOk(s) && AttemptsOk(s) && Enabled(s, AddSecond(i))
    ensures Kept(s, Apply(s, AddSecond(i)))
  {
    assert AttemptOk(s, s.attempts[i]);
    var q := Right(TargetRange(s.attempts[i].target));
    AddRangeJobOk(s, q);
    AttemptMoves(s, AddRangeJob(s, q), Apply(s, AddSecond(i)), i);
  }

  lemma CompleteKeeps(s: State, i: nat)
    requires QueueOk(s) && AttemptsOk(s) && Enabled(s, Complete(i))
    ensures Kept(s, Apply(s, Complete(i)))
  {
    assert AttemptOk(s, s.attempts[i]);
    var m := SetStatus(s, s.attempts[i].key, Completed);
    QueueStaysOk(s, m);
    DischargedStays(s, m, s.attempts[i].target);
    AttemptMoves(s, m, Apply(s, Complete(i)), i);
  }

  lemma FailKeeps(s: State, i: nat)
    requires QueueOk(s) && AttemptsOk(s) && Enabled(s, Fail(i))
    ensures Kept(s, Apply(s, Fail(i)))
  {
    assert AttemptOk(s, s.attempts[i]);
    var m := ReportFailure(s, s.attempts[i].key);
    QueueStaysOk(s, m);
    AttemptMoves(s, m, Apply(s, Fail(i)), i);
  }

  lemma CrashKeeps(s: State, i: nat)
    requires QueueOk(s) && AttemptsOk(s) && Enabled(s, Crash(i))
    ensures Kept(s, Apply(s, Crash(i)))
  {
    assert AttemptOk(s, s.attempts[i]);
    AttemptMoves(s, s, Apply(s, Crash(i)), i);
  }

  lemma BeginKeeps(s: State, key: JobKey)
    requires QueueOk(s) && AttemptsOk(s) && Enabled(s, Begin(key))
    ensures Kept(s, Apply(s, Begin(key)))
  {
    var u := Apply(s, Begin(key));
    var m := u.(attempts := s.attempts);
    QueueStaysOk(s, m);
    AttemptsStayOk(s, m);
    QueueStaysOk(m, u);
    assert AttemptOk(u, u.attempts[|s.attempts|]);
    forall j | 0 <= j < |s.attempts|
      ensures AttemptOk(u, u.attempts[j])
    {
      assert AttemptOk(m, m.attempts[j]);
      if m.attempts[j].progress.Finished? {
        DischargedStays(m, u, m.attempts[j].target);
      }
    }
  }

  lemma GrowKeeps(s: State, hashes: set<Hash>)
    requires QueueOk(s) && AttemptsOk(s) && Enabled(s, Grow(hashes))
    ensures Kept(s, Apply(s, Grow(hashes)))
  {
    QueueStaysOk(s, Apply(s, Grow(hashes)));
    AttemptsStayOk(s, Apply(s, Grow(hashes)));
  }

  lemma StallKeeps(s: State, key: JobKey, giveUp: bool)
    requires QueueOk(s) && AttemptsOk(s) && Enabled(s, Stall(key, giveUp))
    ensures Kept(s, Apply(s, Stall(key, giveUp)))
  {
    QueueStaysOk(s, Apply(s, Stall(key, giveUp)));
    AttemptsStayOk(s, Apply(s, Stall(key, giveUp)));
  }

  lemma ExpireKeeps(s: State, key: JobKey)
    requires QueueOk(s) && AttemptsOk(s) && Enabled(s, Expire(key))
    ensures Kept(s, Apply(s, Expire(key)))
  {
    QueueStaysOk(s, Apply(s, Expire(key)));
    AttemptsStayOk(s, Apply(s, Expire(key)));
  }

  lemma LiveAddKeeps(s: State, height: int)
    requires QueueOk(s) && AttemptsOk(s) && Enabled(s, LiveAdd(height))
    ensures Kept(s, Apply(s, LiveAdd(height)))
  {
    AddJobOk(s, BlockKey(height), Ingest(height), MAX_ATTEMPTS, High);
    AttemptsStayOk(s, Apply(s, LiveAdd(height)));
  }

  lemma AddAutoKeeps(s: State, target: Target, priority: Priority)
    requires QueueOk(s) && AttemptsOk(s)
    ensures Kept(s, AddAuto(s, target, priority))
    ensures AutoKey(s.nextAuto) in AddAuto(s, target, priority).accepted
    ensures AddAuto(s, target, priority).accepted[AutoKey(s.nextAuto)] == target
  {
    var key := AutoKey(s.nextAuto);
    assert key !in s.accepted by {
      assert key in s.accepted ==> Fits(s, key, s.accepted[key]);
    }
    assert key !in s.jobs;
    var m := s.(nextAuto := s.nextAuto + 1);
    QueueStaysOk(s, m);
    AddJobOk(m, key, target, SINGLE_ATTEMPT, priority);
    AttemptsStayOk(s, AddAuto(s, target, priority));
  }

  /** Every step keeps the queue invariant. */
  lemma StepKeepsQueue(s: State, step: Step)
    requires QueueOk(s) && AttemptsOk(s) && Enabled(s, step)
    ensures Kept(s, Apply(s, step))
  {
    match step {
      case Grow(hashes) => GrowKeeps(s, hashes);
      case LiveAdd(height) => LiveAddKeeps(s, height);
      case DailyAdd(end) => AddAutoKeeps(s, Verify(s.start, end), Low);
      case FailSafe(height) => AddAutoKeeps(s, Ingest(height), High);
      case Begin(key) => BeginKeeps(s, key);
      case Look(i) => LookKeeps(s, i);
      case SaveBlock(i) => SaveBlockKeeps(s, i);
      case SaveTxs(i) => SaveTxsKeeps(s, i);
      case Count(i) => CountKeeps(s, i);
      case DispatchAll(i) => DispatchAllKeeps(s, i);
      case AddFirst(i) => AddFirstKeeps(s, i);
      case AddSecond(i) => AddSecondKeeps(s, i);
      case Complete(i) => CompleteKeeps(s, i);
      case Fail(i) => FailKeeps(s, i);
      case Crash(i) => CrashKeeps(s, i);
      case Stall(key, giveUp) => StallKeeps(s, key, giveUp);
      case Expire(key) => ExpireKeeps(s, key);
    }
  }

  lemma {:induction false} RunKeepsQueue(s: State, steps: seq<Step>)
    requires QueueOk(s) && AttemptsOk(s) && Valid(s, steps)
    ensures QueueOk(After(s, steps)) && AttemptsOk(After(s, steps)) && Extends(s, After(s, steps))
    decreases |steps|
  {
    if steps != [] {
      StepKeepsQueue(s, steps[0]);
      RunKeepsQueue(Apply(s, steps[0]), steps[1..]);
    }
  }

  lemma InitOk(s: State)
    requires Init(s)
    ensures QueueOk(s) && AttemptsOk(s)
  {
  }

  /** The invariant holds in every reachable state. */
  lemma ReachableOk(s: State, steps: seq<Step>)
    requires Init(s) && Valid(s, steps)
    ensures QueueOk(After(s, steps)) && AttemptsOk(After(s, steps))
  {
    InitOk(s);
    RunKeepsQueue(s, steps);
  }

  // ---- failed jobs ----

  lemma StepKeepsFailed(s: State, step: Step, key: JobKey)
    requires Enabled(s, step) && key in s.jobs && s.jobs[key].status.Failed?
    ensures key in Apply(s, step).jobs && Apply(s, step).jobs[key] == s.jobs[key]
  {
    if step.DispatchAll? {
      var t := s.attempts[step.i].target;
      BlockJobsInQueue(s, t.from, t.to);
      AddIngestsEffect(s.jobs, t.from, t.to, Low);
    }
  }

  /** A failed job stays in the queue as it is in every continuation: it is neither retried nor dropped,
      and adding it again does nothing. */
  lemma {:induction false} FailedForEver(s: State, steps: seq<Step>, key: JobKey)
    requires Valid(s, steps) && key in s.jobs && s.jobs[key].status.Failed?
    ensures key in After(s, steps).jobs && After(s, steps).jobs[key] == s.jobs[key]
    decreases |steps|
  {
    if steps != [] {
      StepKeepsFailed(s, steps[0], key);
      FailedForEver(Apply(s, steps[0]), steps[1..], key);
    }
  }

  /** The block is missing, its job failed, and nothing that would store it is waiting or running. */
  ghost predicate GivenUp(s: State, h: int) {
    && h !in s.blocks
    && BlockKey(h) in s.jobs && s.jobs[BlockKey(h)].status.Failed?
    && (forall k :: k in s.jobs && s.jobs[k].target == Ingest(h) ==> !Unfinished(s.jobs[k]))
    && (forall i :: 0 <= i < |s.attempts| && s.attempts[i].running ==> s.attempts[i].target != Ingest(h))
  }

  lemma DispatchKeepsGivenUp(s: State, i: nat, h: int)
    requires Enabled(s, DispatchAll(i)) && GivenUp(s, h)
    ensures GivenUp(Apply(s, DispatchAll(i)), h)
  {
    var t := s.attempts[i].target;
    BlockJobsInQueue(s, t.from, t.to);
    AddIngestsEffect(s.jobs, t.from, t.to, Low);
  }

  lemma StepKeepsGivenUp(s: State, step: Step, h: int)
    requires Enabled(s, step) && GivenUp(s, h) && step != FailSafe(h)
    ensures GivenUp(Apply(s, step), h)
  {
    if step.DispatchAll? {
      DispatchKeepsGivenUp(s, step.i, h);
    } else {
      StepKeepsFailed(s, step, BlockKey(h));
    }
  }

  /** Once its job has failed, neither the live window nor any sweep ever brings a missing block back,
      whatever they dispatch: only a job for a reader, which has an identifier of its own, can. */
  lemma {:induction false} FailedStaysMissing(s: State, steps: seq<Step>, h: int)
    requires Valid(s, steps) && GivenUp(s, h) && FailSafe(h) !in steps
    ensures GivenUp(After(s, steps), h) && h !in After(s, steps).blocks
    decreases |steps|
  {
    if steps != [] {
      StepKeepsGivenUp(s, steps[0], h);
      FailedStaysMissing(Apply(s, steps[0]), steps[1..], h);
    }
  }
}
