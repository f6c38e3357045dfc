/** The two schedulers and the requests of readers as steps of the protocol. */
module SchedulerSteps {
  import opened JobKeys
  import opened Queues
  import opened Ingestion
  import opened QueueInvariant
  import opened LiveWindow

  /** The first n adds of a tick of the live scheduler, newest height first. */
  function LiveSteps(head: int, n: nat): seq<Step> {
    if n == 0 then [] else LiveSteps(head, n - 1) + [LiveAdd(head - (n - 1))]
  }

  /** What these adds leave in the queue. */
  ghost predicate LiveAdded(jobs: Jobs, head: int, n: nat, u: Jobs) {
    && (forall k :: k in u <==> k in jobs || (k.BlockKey? && head - n < k.height <= head))
    && (forall k :: k in jobs ==> u[k] == jobs[k])
    && (forall k :: k in u && k !in jobs ==> u[k] == Job(Ingest(k.height), Waiting, 5, High))
  }

  lemma {:induction false} LiveStepsAdd(s: State, head: int, n: nat)
    requires head <= s.head
    ensures Valid(s, LiveSteps(head, n))
    ensures var u := After(s, LiveSteps(head, n)); u.head == s.head && LiveAdded(s.jobs, head, n, u.jobs)
  {
    if n > 0 {
      LiveStepsAdd(s, head, n - 1);
      var mid := After(s, LiveSteps(head, n - 1));
      var step := LiveAdd(head - (n - 1));
      ValidCons(mid, step, []);
      ValidAppend(s, LiveSteps(head, n - 1), [step]);
    }
  }

  lemma SameJobs(jobs: Jobs, head: int, u: Jobs)
    requires LiveAdded(jobs, head, 20, u)
    ensures u == Tick(jobs, head)
  {
    AddIngestsEffect(jobs, head - 19, head, High);
  }

  /** Twenty adds in a row are a tick of the live scheduler, for any head the chain had. */
  lemma LiveStepsAreATick(s: State, head: int)
    requires head <= s.head
    ensures Valid(s, LiveSteps(head, 20)) && After(s, LiveSteps(head, 20)).jobs == Tick(s.jobs, head)
  {
    LiveStepsAdd(s, head, 20);
    SameJobs(s.jobs, head, After(s, LiveSteps(head, 20)).jobs);
  }

  lemma NextIdentifierIsNew(s: State)
    requires QueueOk(s)
    ensures AutoKey(s.nextAuto) !in s.jobs
  {
    var key := AutoKey(s.nextAuto);
    assert key in s.accepted ==> Fits(s, key, s.accepted[key]);
  }

  /** The daily check and a request of a reader each add one more job, in every reachable state. */
  lemma SingleAdds(s0: State, steps: seq<Step>, end: int, height: int)
    requires Init(s0) && Valid(s0, steps)
    ensures var s := After(s0, steps);
            && AutoKey(s.nextAuto) !in s.jobs
            && (end <= s.head ==>
                  && Enabled(s, DailyAdd(end))
                  && Apply(s, DailyAdd(end)).jobs
                     == s.jobs[AutoKey(s.nextAuto) := Job(Verify(s.start, end), Waiting, 1, Low)])
            && (height >= s.start ==>
                  && Enabled(s, FailSafe(height))
                  && Apply(s, FailSafe(height)).jobs
                     == s.jobs[AutoKey(s.nextAuto) := Job(Ingest(height), Waiting, 1, High)])
            && (height < s.start ==> !Enabled(s, FailSafe(height)))
  {
    ReachableOk(s0, steps);
    NextIdentifierIsNew(After(s0, steps));
  }
}
