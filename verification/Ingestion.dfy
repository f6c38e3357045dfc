/** The ingestion protocol as a transition system: the chain, the block and transaction tables, the
    queue, and any number of concurrent attempts at its jobs.

    A step is one effect another process can see. An attempt may stop between any two of its steps;
    the queue may retry a job, give up on it, hand it out again while an older attempt still runs, or
    forget it once it is completed. */
module Ingestion {
  import opened JobKeys
  import opened Queues
  import opened Bisection

  type Hash = string

  /** How far an attempt got. The first three after Begun belong to ingest jobs in part and to range
      jobs in part; Finished is common to both. */
  datatype Progress =
    | Begun
    | SawNoBlock    // ingest: the existence check found nothing
    | SavedBlock    // ingest: the block row is written, the transactions are not
    | MustDispatch  // range: something is missing and the range is small
    | MustSplit     // range: something is missing and the range is large
    | AddedFirst    // range: the first of the two children is in the queue
    | Finished

  datatype Attempt = Attempt(key: JobKey, target: Target, progress: Progress, running: bool)

  /** accepted remembers every job the queue ever took; attempts is never shortened. Both are only
      there to state properties. */
  datatype State = State(
    start: int,
    head: int,
    chain: map<int, set<Hash>>,
    blocks: set<int>,
    txs: map<Hash, int>,
    jobs: Jobs,
    nextAuto: nat,
    attempts: seq<Attempt>,
    accepted: map<JobKey, Target>
  )

  /** The schedulers read the head once and add their jobs later, one at a time, so LiveAdd and DailyAdd
      may be about any head the chain had; LiveWindow says which heights one tick asks for. */
  datatype Step =
    | Grow(hashes: set<Hash>)
    | LiveAdd(height: int)
    | DailyAdd(end: int)
    | FailSafe(height: int)
    | Begin(key: JobKey)
    | Look(i: nat)
    | SaveBlock(i: nat)
    | SaveTxs(i: nat)
    | Count(i: nat)
    | DispatchAll(i: nat)
    | AddFirst(i: nat)
    | AddSecond(i: nat)
    | Complete(i: nat)
    | Fail(i: nat)
    | Crash(i: nat)
    | Stall(key: JobKey, giveUp: bool)
    | Expire(key: JobKey)

  // ---- steps ----

  function AddJob(s: State, key: JobKey, target: Target, attempts: nat, priority: Priority): State {
    s.(jobs := Add(s.jobs, key, target, attempts, priority),
       accepted := if key in s.jobs then s.accepted else s.accepted[key := target])
  }

  function AddAuto(s: State, target: Target, priority: Priority): State {
    AddJob(s.(nextAuto := s.nextAuto + 1), AutoKey(s.nextAuto), target, SINGLE_ATTEMPT, priority)
  }

  function AddBlockJob(s: State, height: int, priority: Priority): State {
    AddJob(s, BlockKey(height), Ingest(height), MAX_ATTEMPTS, priority)
  }

  function AddRangeJob(s: State, r: Range): State {
    AddJob(s, RangeKey(r.from, r.to), Verify(r.from, r.to), MAX_ATTEMPTS, Unset)
  }

  function AddBlockJobs(s: State, first: int, last: int): (u: State)
    ensures u == s.(jobs := u.jobs, accepted := u.accepted)
    decreases last - first
  {
    if last < first then s else AddBlockJob(AddBlockJobs(s, first, last - 1), last, Low)
  }

  lemma {:induction false} BlockJobsInQueue(s: State, first: int, last: int)
    ensures AddBlockJobs(s, first, last).jobs == AddIngests(s.jobs, first, last, Low)
    decreases last - first
  {
    if first <= last {
      BlockJobsInQueue(s, first, last - 1);
    }
  }

  predicate At(s: State, i: nat, progress: Progress) {
    i < |s.attempts| && s.attempts[i].running && s.attempts[i].progress == progress
  }

  predicate Running(s: State, i: nat) {
    i < |s.attempts| && s.attempts[i].running
  }

  function Advance(s: State, i: nat, progress: Progress): State
    requires i < |s.attempts|
  {
    s.(attempts := s.attempts[i := s.attempts[i].(progress := progress)])
  }

  function Halt(s: State, i: nat): State
    requires i < |s.attempts|
  {
    s.(attempts := s.attempts[i := s.attempts[i].(running := false)])
  }

  function SetStatus(s: State, key: JobKey, status: Status): State {
    if key in s.jobs && s.jobs[key].status.Active? then s.(jobs := s.jobs[key := s.jobs[key].(status := status)]) else s
  }

  function ReportFailure(s: State, key: JobKey): State {
    if key in s.jobs && s.jobs[key].status.Active? then s.(jobs := s.jobs[key := AfterFailure(s.jobs[key])]) else s
  }

  function TargetRange(t: Target): Range
    requires t.Verify?
  {
    Range(t.from, t.to)
  }

  predicate Enabled(s: State, step: Step) {
    match step
    case Grow(hashes) => forall h :: h in s.chain ==> s.chain[h] !! hashes
    case LiveAdd(height) => height <= s.head
    case DailyAdd(end) => end <= s.head
    case FailSafe(height) => height >= s.start
    case Begin(key) => key in s.jobs && s.jobs[key].status.Waiting?
    case Look(i) => At(s, i, Begun) && s.attempts[i].target.Ingest?
    case SaveBlock(i) => At(s, i, SawNoBlock) && s.attempts[i].target.Ingest? && s.attempts[i].target.height in s.chain
    case SaveTxs(i) => At(s, i, SavedBlock) && s.attempts[i].target.Ingest? && s.attempts[i].target.height in s.chain
    case Count(i) => At(s, i, Begun) && s.attempts[i].target.Verify?
    case DispatchAll(i) => At(s, i, MustDispatch) && s.attempts[i].target.Verify?
    case AddFirst(i) => At(s, i, MustSplit) && s.attempts[i].target.Verify?
    case AddSecond(i) => At(s, i, AddedFirst) && s.attempts[i].target.Verify?
    case Complete(i) => At(s, i, Finished)
    case Fail(i) => Running(s, i) && !s.attempts[i].progress.Finished?
    case Crash(i) => Running(s, i)
    case Stall(key, _) => key in s.jobs && s.jobs[key].status.Active?
    case Expire(key) => key in s.jobs && s.jobs[key].status.Completed?
  }

  function ProgressOf(d: Decision): Progress {
    match d
    case NothingMissing => Finished
    case DispatchWhole => MustDispatch
    case SplitInTwo => MustSplit
  }

  function Apply(s: State, step: Step): State
    requires Enabled(s, step)
  {
    match step
    case Grow(hashes) => s.(head := s.head + 1, chain := s.chain[s.head + 1 := hashes])
    case LiveAdd(height) => AddBlockJob(s, height, High)
    case DailyAdd(end) => AddAuto(s, Verify(s.start, end), Low)
    case FailSafe(height) => AddAuto(s, Ingest(height), High)
    case Begin(key) =>
      var job := s.jobs[key];
      s.(jobs := s.jobs[key := job.(status := Active)],
         attempts := s.attempts + [Attempt(key, job.target, Begun, true)])
    case Look(i) => Advance(s, i, if s.attempts[i].target.height in s.blocks then Finished else SawNoBlock)
    case SaveBlock(i) =>
      Advance(s.(blocks := s.blocks + {s.attempts[i].target.height}), i, SavedBlock)
    case SaveTxs(i) =>
      var height := s.attempts[i].target.height;
      Advance(s.(txs := s.txs + map t | t in s.chain[height] :: height), i, Finished)
    case Count(i) => Advance(s, i, ProgressOf(Decide(s.blocks, TargetRange(s.attempts[i].target))))
    case DispatchAll(i) =>
      var t := s.attempts[i].target;
      Advance(AddBlockJobs(s, t.from, t.to), i, Finished)
    case AddFirst(i) => Advance(AddRangeJob(s, Left(TargetRange(s.attempts[i].target))), i, AddedFirst)
    case AddSecond(i) => Advance(AddRangeJob(s, Right(TargetRange(s.attempts[i].target))), i, Finished)
    case Complete(i) => Halt(SetStatus(s, s.attempts[i].key, Completed), i)
    case Fail(i) => Halt(ReportFailure(s, s.attempts[i].key), i)
    case Crash(i) => Halt(s, i)
    case Stall(key, giveUp) => SetStatus(s, key, if giveUp then Failed else Waiting)
    case Expire(key) => s.(jobs := s.jobs - {key})
  }

  predicate Valid(s: State, steps: seq<Step>)
    decreases |steps|
  {
    steps == [] || (Enabled(s, steps[0]) && Valid(Apply(s, steps[0]), steps[1..]))
  }

  function After(s: State, steps: seq<Step>): State
    requires Valid(s, steps)
    decreases |steps|
  {
    if steps == [] then s else After(Apply(s, steps[0]), steps[1..])
  }

  lemma {:induction false} ValidAppend(s: State, before: seq<Step>, after: seq<Step>)
    requires Valid(s, before) && Valid(After(s, before), after)
    ensures Valid(s, before + after) && After(s, before + after) == After(After(s, before), after)
    decreases |before|
  {
    if before == [] {
      assert before + after == after;
    } else {
      assert (before + after)[1..] == before[1..] + after;
      ValidAppend(Apply(s, before[0]), before[1..], after);
    }
  }

  lemma ValidCons(s: State, step: Step, rest: seq<Step>)
    requires Enabled(s, step) && Valid(Apply(s, step), rest)
    ensures Valid(s, [step] + rest) && After(s, [step] + rest) == After(Apply(s, step), rest)
  {
    assert ([step] + rest)[1..] == rest;
  }

  // ---- the starting point ----

  ghost predicate ChainOk(s: State) {
    && (forall h :: h in s.chain ==> h <= s.head)
    && (forall g, h :: g in s.chain && h in s.chain && g != h ==> s.chain[g] !! s.chain[h])
  }

  ghost predicate BlockComplete(s: State, h: int)
    requires h in s.chain
  {
    forall t :: t in s.chain[h] ==> t in s.txs
  }

  ghost predicate TxsHaveBlocks(s: State) {
    forall t :: t in s.txs ==> s.txs[t] in s.blocks && s.txs[t] in s.chain && t in s.chain[s.txs[t]]
  }

  /** The service starts with an empty queue over tables in which every row is accounted for. */
  ghost predicate Init(s: State) {
    && s.jobs == map[] && s.attempts == [] && s.accepted == map[]
    && ChainOk(s)
    && (forall h :: h in s.blocks ==> h in s.chain && BlockComplete(s, h))
    && TxsHaveBlocks(s)
  }
}
