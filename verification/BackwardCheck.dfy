/** One run of a range job without interference, and its place in the protocol. */
module BackwardCheck {
  import opened JobKeys
  import opened Queues
  import opened Bisection
  import opened Ingestion

  /** What one run of a range job does to the queue. */
  function VerifyJobs(jobs: Jobs, blocks: set<int>, r: Range): Jobs {
    match Decide(blocks, r)
    case NothingMissing => jobs
    case DispatchWhole => AddIngests(jobs, r.from, r.to, Low)
    case SplitInTwo =>
      AddVerify(AddVerify(jobs, Left(r).from, Left(r).to), Right(r).from, Right(r).to)
  }

  /** A job a run of a range job adds. */
  function NewJob(key: JobKey): Job
    requires !key.AutoKey?
  {
    match key
    case BlockKey(h) => Job(Ingest(h), Waiting, 5, Low)
    case RangeKey(a, b) => Job(Verify(a, b), Waiting, 5, Unset)
  }

  /** The keys a run of a range job asks for, told by what is absent from the table. */
  ghost predicate AsksFor(blocks: set<int>, r: Range, key: JobKey) {
    && Absent(blocks, r)
    && match key
       case BlockKey(h) => Span(r) <= 1000 && r.from <= h <= r.to
       case RangeKey(a, b) => Span(r) > 1000 && (Range(a, b) == Left(r) || Range(a, b) == Right(r))
       case AutoKey(_) => false
  }

  /** A run adds the jobs it asks for that are not known, with five attempts each, and changes no other
      job; so running a range twice in a row adds nothing the second time. */
  lemma VerifyJobsMeaning(jobs: Jobs, blocks: set<int>, r: Range)
    ensures var u := VerifyJobs(jobs, blocks, r);
            && (forall k :: k in u <==> k in jobs || AsksFor(blocks, r, k))
            && (forall k :: k in jobs ==> u[k] == jobs[k])
            && (forall k :: k in u && k !in jobs ==> u[k] == NewJob(k))
            && VerifyJobs(u, blocks, r) == u
  {
    MissingIsAbsence(blocks, r);
    AddIngestsEffect(jobs, r.from, r.to, Low);
    var u := VerifyJobs(jobs, blocks, r);
    AddIngestsEffect(u, r.from, r.to, Low);
    if Decide(blocks, r).DispatchWhole? {
      assert VerifyJobs(u, blocks, r) == u;
    }
  }

  /** The steps between the count and the end of an attempt. */
  function Additions(d: Decision, i: nat): seq<Step> {
    match d
    case NothingMissing => []
    case DispatchWhole => [DispatchAll(i)]
    case SplitInTwo => [AddFirst(i), AddSecond(i)]
  }

  /** The steps of an attempt nobody interrupts. */
  function VerifySteps(s: State, key: JobKey, r: Range): seq<Step> {
    var i := |s.attempts|;
    [Begin(key), Count(i)] + (Additions(Decide(s.blocks, r), i) + [Complete(i)])
  }

  /** The queue after an uninterrupted run: the job is marked completed, everything else is as
      VerifyJobs says. */
  ghost predicate RanAlone(s: State, key: JobKey, r: Range, u: State)
    requires key in s.jobs
  {
    var job := s.jobs[key];
    && u.blocks == s.blocks && u.txs == s.txs
    && u.jobs == VerifyJobs(s.jobs[key := job.(status := Active)], s.blocks, r)[key := job.(status := Completed)]
  }

  predicate ReadyToCheck(s: State, key: JobKey, r: Range) {
    key in s.jobs && s.jobs[key].status.Waiting? && s.jobs[key].target == Verify(r.from, r.to)
  }

  /** The state in which a fresh attempt at the job has got as far as the given progress. */
  function Under(s: State, key: JobKey, r: Range, progress: Progress): State
    requires key in s.jobs
  {
    s.(jobs := s.jobs[key := s.jobs[key].(status := Active)],
       attempts := s.attempts + [Attempt(key, Verify(r.from, r.to), progress, true)])
  }

  lemma CountedAlone(s: State, key: JobKey, r: Range)
    requires ReadyToCheck(s, key, r)
    ensures var steps := [Begin(key), Count(|s.attempts|)];
            Valid(s, steps) && After(s, steps) == Under(s, key, r, ProgressOf(Decide(s.blocks, r)))
  {
    var i := |s.attempts|;
    var s1 := Under(s, key, r, Begun);
    var s2 := Under(s, key, r, ProgressOf(Decide(s.blocks, r)));
    assert Apply(s, Begin(key)) == s1;
    assert TargetRange(s1.attempts[i].target) == r;
    assert Apply(s1, Count(i)).attempts == s2.attempts;
    assert Apply(s1, Count(i)) == s2;
    ValidCons(s1, Count(i), []);
    ValidCons(s, Begin(key), [Count(i)]);
  }

  lemma CompleteAlone(s: State, key: JobKey)
    requires |s.attempts| > 0 && At(s, |s.attempts| - 1, Finished) && s.attempts[|s.attempts| - 1].key == key
    requires key in s.jobs && s.jobs[key].status.Active?
    ensures var steps := [Complete(|s.attempts| - 1)];
            && Valid(s, steps)
            && After(s, steps).chain == s.chain && After(s, steps).blocks == s.blocks && After(s, steps).txs == s.txs
            && After(s, steps).jobs == s.jobs[key := s.jobs[key].(status := Completed)]
  {
    ValidCons(s, Complete(|s.attempts| - 1), []);
  }

  lemma DispatchAlone(s: State, key: JobKey, r: Range)
    requires ReadyToCheck(s, key, r)
    ensures var u := Under(s, key, r, MustDispatch);
            var steps := [DispatchAll(|s.attempts|)];
            && Valid(u, steps)
            && After(u, steps).blocks == s.blocks && After(u, steps).txs == s.txs
            && After(u, steps).attempts == Under(s, key, r, Finished).attempts
            && After(u, steps).jobs == AddIngests(u.jobs, r.from, r.to, Low)
  {
    var u := Under(s, key, r, MustDispatch);
    BlockJobsInQueue(u, r.from, r.to);
    ValidCons(u, DispatchAll(|s.attempts|), []);
  }

  lemma SplitAlone(s: State, key: JobKey, r: Range)
    requires ReadyToCheck(s, key, r)
    ensures var u := Under(s, key, r, MustSplit);
            var steps := [AddFirst(|s.attempts|), AddSecond(|s.attempts|)];
            && Valid(u, steps)
            && After(u, steps).blocks == s.blocks && After(u, steps).txs == s.txs
            && After(u, steps).attempts == Under(s, key, r, Finished).attempts
            && After(u, steps).jobs ==
               AddVerify(AddVerify(u.jobs, Left(r).from, Left(r).to), Right(r).from, Right(r).to)
  {
    var i := |s.attempts|;
    var u := Under(s, key, r, MustSplit);
    var v := AddRangeJob(u, Left(r)).(attempts := Under(s, key, r, AddedFirst).attempts);
    var w := AddRangeJob(v, Right(r)).(attempts := Under(s, key, r, Finished).attempts);
    assert TargetRange(u.attempts[i].target) == r && TargetRange(v.attempts[i].target) == r;
    assert Apply(u, AddFirst(i)).attempts == v.attempts;
    assert Apply(u, AddFirst(i)) == v;
    assert Apply(v, AddSecond(i)).attempts == w.attempts;
    assert Apply(v, AddSecond(i)) == w;
    ValidCons(v, AddSecond(i), []);
    ValidCons(u, AddFirst(i), [AddSecond(i)]);
  }

  lemma AddedAlone(s: State, key: JobKey, r: Range)
    requires ReadyToCheck(s, key, r)
    ensures var u := Under(s, key, r, ProgressOf(Decide(s.blocks, r)));
            var steps := Additions(Decide(s.blocks, r), |s.attempts|);
            && Valid(u, steps)
            && After(u, steps).blocks == s.blocks && After(u, steps).txs == s.txs
            && After(u, steps).attempts == Under(s, key, r, Finished).attempts
            && After(u, steps).jobs == VerifyJobs(u.jobs, s.blocks, r)
            && key in After(u, steps).jobs && After(u, steps).jobs[key] == u.jobs[key]
  {
    var u := Under(s, key, r, ProgressOf(Decide(s.blocks, r)));
    match Decide(s.blocks, r) {
      case NothingMissing =>
      case DispatchWhole =>
        DispatchAlone(s, key, r);
        AddIngestsEffect(u.jobs, r.from, r.to, Low);
      case SplitInTwo => SplitAlone(s, key, r);
    }
  }

  /** The protocol, left to run one range job alone, does what the sequential code does. */
  lemma VerifyAlone(s: State, key: JobKey, r: Range)
    requires ReadyToCheck(s, key, r)
    ensures Valid(s, VerifySteps(s, key, r)) && RanAlone(s, key, r, After(s, VerifySteps(s, key, r)))
  {
    var i := |s.attempts|;
    var u := Under(s, key, r, ProgressOf(Decide(s.blocks, r)));
    var middle := Additions(Decide(s.blocks, r), i);
    CountedAlone(s, key, r);
    AddedAlone(s, key, r);
    CompleteAlone(After(u, middle), key);
    ValidAppend(u, middle, [Complete(i)]);
    ValidAppend(s, [Begin(key), Count(i)], middle + [Complete(i)]);
  }
}
