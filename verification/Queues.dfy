/** The job queue shared by the schedulers and the consumer.

    What the queue library does is stated here as the meaning of four operations: adding a job whose
    identifier is already known does nothing, a failed attempt is retried while attempts are left,
    a job that ran out of attempts stays in the queue, a completed job may be dropped later. */
module Queues {
  import opened JobKeys

  const MAX_ATTEMPTS: nat := 5
  const SINGLE_ATTEMPT: nat := 1

  /** Unset is what a job added without a priority gets. */
  datatype Priority = Unset | Urgent | High | Normal | Low

  datatype Target = Ingest(height: int) | Verify(from: int, to: int)

  datatype Status = Waiting | Active | Completed | Failed

  datatype Job = Job(target: Target, status: Status, attemptsLeft: nat, priority: Priority)

  type Jobs = map<JobKey, Job>

  function Add(jobs: Jobs, key: JobKey, target: Target, attempts: nat, priority: Priority): (r: Jobs)
    ensures r.Keys == jobs.Keys + {key}
    ensures forall k :: k in jobs ==> r[k] == jobs[k]
    ensures key !in jobs ==> r[key].target == target && r[key].status.Waiting?
  {
    if key in jobs then jobs else jobs[key := Job(target, Waiting, attempts, priority)]
  }

  function AddIngest(jobs: Jobs, height: int, priority: Priority): Jobs {
    Add(jobs, BlockKey(height), Ingest(height), MAX_ATTEMPTS, priority)
  }

  function AddVerify(jobs: Jobs, from: int, to: int): Jobs {
    Add(jobs, RangeKey(from, to), Verify(from, to), MAX_ATTEMPTS, Unset)
  }

  /** Adds the ingest jobs of the heights first..last, lowest first. */
  function AddIngests(jobs: Jobs, first: int, last: int, priority: Priority): Jobs
    decreases last - first
  {
    if last < first then jobs else AddIngest(AddIngests(jobs, first, last - 1, priority), last, priority)
  }

  /** The status of a job whose attempt just failed. */
  function AfterFailure(job: Job): Job {
    if job.attemptsLeft > 1 then job.(status := Waiting, attemptsLeft := job.attemptsLeft - 1)
    else job.(status := Failed, attemptsLeft := 0)
  }

  function FailTimes(job: Job, n: nat): Job {
    if n == 0 then job else AfterFailure(FailTimes(job, n - 1))
  }

  /** A job is given up after as many failures as it was given attempts, and not before. */
  lemma {:induction false} GivenUpAfterItsAttempts(job: Job, n: nat)
    requires job.attemptsLeft >= 1 && 1 <= n <= job.attemptsLeft
    ensures FailTimes(job, n).status == if n < job.attemptsLeft then Waiting else Failed
    ensures FailTimes(job, n).attemptsLeft == job.attemptsLeft - n
    decreases n
  {
    if n > 1 {
      GivenUpAfterItsAttempts(job, n - 1);
    } else {
      assert FailTimes(job, 0) == job;
    }
  }

  predicate Unfinished(job: Job) {
    job.status.Waiting? || job.status.Active?
  }

  /** A bulk add creates exactly the absent jobs of the range and leaves every known job as it was. */
  lemma {:induction false} AddIngestsEffect(jobs: Jobs, first: int, last: int, priority: Priority)
    ensures forall k :: k in AddIngests(jobs, first, last, priority)
                        <==> k in jobs || (k.BlockKey? && first <= k.height <= last)
    ensures forall k :: k in jobs ==> AddIngests(jobs, first, last, priority)[k] == jobs[k]
    ensures forall k :: k in AddIngests(jobs, first, last, priority) && k !in jobs
                        ==> AddIngests(jobs, first, last, priority)[k]
                            == Job(Ingest(k.height), Waiting, 5, priority)
    decreases last - first
  {
    if first <= last {
      AddIngestsEffect(jobs, first, last - 1, priority);
    }
  }
}
