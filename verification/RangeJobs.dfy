/** How many ranges the daily checks can ask for, and how many jobs they can add, over a whole run. */
module RangeJobs {
  import opened JobKeys
  import opened Queues
  import opened Bisection
  import opened Ingestion
  import opened QueueInvariant
  import opened Occurrences

  /** r is a range that splitting root can lead to, other than root itself. */
  ghost predicate StrictlyBelow(root: Range, r: Range) {
    Span(root) > LEAF_SPAN && (InTree(Left(root), r) || InTree(Right(root), r))
  }

  /** The n-th job without an identifier of its own checks a range above r. */
  ghost predicate FromRoot(s: State, n: nat, r: Range) {
    && AutoKey(n) in s.accepted && s.accepted[AutoKey(n)].Verify?
    && StrictlyBelow(TargetRange(s.accepted[AutoKey(n)]), r)
  }

  ghost predicate HasRoot(s: State, r: Range) {
    exists n :: FromRoot(s, n, r)
  }

  /** Every range job that was ever accepted descends from a daily one. */
  ghost predicate AllFromRoots(s: State) {
    forall a, b :: RangeKey(a, b) in s.accepted ==> HasRoot(s, Range(a, b))
  }

  lemma HasRootStays(s: State, u: State, r: Range)
    requires Extends(s, u) && HasRoot(s, r)
    ensures HasRoot(u, r)
  {
    var n :| FromRoot(s, n, r);
    assert FromRoot(u, n, r);
  }

  /** Both children of a split that an attempt may add have a root. */
  lemma ChildrenHaveRoot(s: State, a: Attempt)
    requires QueueOk(s) && AllFromRoots(s) && AttemptOk(s, a)
    requires a.target.Verify? && Span(TargetRange(a.target)) > LEAF_SPAN
    ensures HasRoot(s, Left(TargetRange(a.target))) && HasRoot(s, Right(TargetRange(a.target)))
  {
    var r := TargetRange(a.target);
    assert Fits(s, a.key, a.target);
    if a.key.AutoKey? {
      assert InTree(Left(r), Left(r)) && InTree(Right(r), Right(r));
      assert FromRoot(s, a.key.n, Left(r)) && FromRoot(s, a.key.n, Right(r));
    } else {
      var n :| FromRoot(s, n, r);
      var root := TargetRange(s.accepted[AutoKey(n)]);
      if InTree(Left(root), r) { ChildInTree(Left(root), r); } else { ChildInTree(Right(root), r); }
      assert FromRoot(s, n, Left(r)) && FromRoot(s, n, Right(r));
    }
  }

  lemma NoNewRange(s: State, u: State)
    requires AllFromRoots(s) && Extends(s, u)
    requires forall a, b :: RangeKey(a, b) in u.accepted ==> RangeKey(a, b) in s.accepted || HasRoot(s, Range(a, b))
    ensures AllFromRoots(u)
  {
    forall a, b | RangeKey(a, b) in u.accepted
      ensures HasRoot(u, Range(a, b))
    {
      HasRootStays(s, u, Range(a, b));
    }
  }

  lemma {:induction false} BlockJobsAddNoRange(s: State, first: int, last: int)
    ensures forall a, b :: RangeKey(a, b) in AddBlockJobs(s, first, last).accepted ==> RangeKey(a, b) in s.accepted
    decreases last - first
  {
    if first <= last {
      BlockJobsAddNoRange(s, first, last - 1);
    }
  }

  lemma StepKeepsRoots(s: State, step: Step)
    requires QueueOk(s) && AttemptsOk(s) && AllFromRoots(s) && Enabled(s, step)
    ensures AllFromRoots(Apply(s, step))
  {
    StepKeepsQueue(s, step);
    if step.AddFirst? || step.AddSecond? {
      assert AttemptOk(s, s.attempts[step.i]);
      ChildrenHaveRoot(s, s.attempts[step.i]);
    } else if step.DispatchAll? {
      BlockJobsAddNoRange(s, s.attempts[step.i].target.from, s.attempts[step.i].target.to);
    }
    NoNewRange(s, Apply(s, step));
  }

  lemma {:induction false} RunKeepsRoots(s: State, steps: seq<Step>)
    requires QueueOk(s) && AttemptsOk(s) && AllFromRoots(s) && Valid(s, steps)
    ensures AllFromRoots(After(s, steps))
    decreases |steps|
  {
    if steps != [] {
      StepKeepsRoots(s, steps[0]);
      StepKeepsQueue(s, steps[0]);
      RunKeepsRoots(Apply(s, steps[0]), steps[1..]);
    }
  }

  ghost function Below(root: Range): (s: set<Range>)
    ensures |s| + 1 <= TreeSize(root)
    ensures forall r :: r in s <==> StrictlyBelow(root, r)
  {
    if Span(root) > LEAF_SPAN then TreeRanges(Left(root)) + TreeRanges(Right(root)) else {}
  }

  /** All ranges strictly below one of the roots. */
  ghost function AllBelow(roots: seq<Range>): set<Range> {
    if roots == [] then {} else AllBelow(roots[..|roots| - 1]) + Below(roots[|roots| - 1])
  }

  lemma {:induction false} AllBelowSize(roots: seq<Range>)
    ensures |AllBelow(roots)| + |roots| <= TotalTree(roots)
  {
    if roots != [] {
      AllBelowSize(roots[..|roots| - 1]);
    }
  }

  lemma {:induction false} InAllBelow(roots: seq<Range>, root: Range)
    requires root in roots
    ensures Below(root) <= AllBelow(roots)
  {
    var n := |roots| - 1;
    if root != roots[n] {
      InAllBelow(roots[..n], root);
    }
  }

  /** The ranges that daily checks ever asked for are among the roots. */
  ghost predicate DailyRoots(s: State, roots: seq<Range>) {
    forall n: nat :: AutoKey(n) in s.accepted && s.accepted[AutoKey(n)].Verify?
                     ==> TargetRange(s.accepted[AutoKey(n)]) in roots
  }

  /** Over every run, with retries, crashes between the two adds, overlapping sweeps and a growing table:
      the distinct ranges all sweeps together ask for, the roots included, are never more than the trees of
      the daily roots have. */
  lemma RangeJobsOfRun(s0: State, steps: seq<Step>, roots: seq<Range>, ranges: set<Range>)
    requires Init(s0) && Valid(s0, steps) && DailyRoots(After(s0, steps), roots)
    requires forall r :: r in ranges ==> RangeAccepted(After(s0, steps), r)
    ensures |ranges| + |roots| <= TotalTree(roots)
  {
    var u := After(s0, steps);
    InitOk(s0);
    RunKeepsRoots(s0, steps);
    forall r | r in ranges
      ensures r in AllBelow(roots)
    {
      assert RangeKey(r.from, r.to) in u.accepted;
      assert HasRoot(u, Range(r.from, r.to));
      var n :| FromRoot(u, n, r);
      InAllBelow(roots, TargetRange(u.accepted[AutoKey(n)]));
    }
    SubsetSize(ranges, AllBelow(roots));
    AllBelowSize(roots);
  }

  /** So a single root of n heights that has to be split leads to at most 2 * (n / 501) - 1 distinct ranges,
      its own included. */
  lemma RangeJobsOfOneRoot(s0: State, steps: seq<Step>, root: Range, ranges: set<Range>)
    requires Init(s0) && Valid(s0, steps) && DailyRoots(After(s0, steps), [root]) && Span(root) > LEAF_SPAN
    requires forall r :: r in ranges ==> RangeAccepted(After(s0, steps), r)
    ensures |ranges| + 1 <= 2 * ((Span(root) + 1) / 501) - 1
  {
    RangeJobsOfRun(s0, steps, [root], ranges);
    assert [root][..0] == [];
    assert TotalTree([root]) == TreeSize(root);
    RangeJobBound(root);
  }

  // ---- jobs added, one by one ----

  /** The range of the job a step adds to the queue, if it adds a range job. */
  function NewRange(s: State, step: Step): seq<Range>
    requires Enabled(s, step)
  {
    if step.AddFirst? || step.AddSecond? then
      var r := TargetRange(s.attempts[step.i].target);
      var child := if step.AddFirst? then Left(r) else Right(r);
      if RangeKey(child.from, child.to) in s.jobs then [] else [child]
    else []
  }

  /** The ranges of all range jobs a run adds, in order. */
  function Added(s: State, steps: seq<Step>): seq<Range>
    requires Valid(s, steps)
    decreases |steps|
  {
    if steps == [] then [] else NewRange(s, steps[0]) + Added(Apply(s, steps[0]), steps[1..])
  }

  ghost predicate NothingDropped(steps: seq<Step>) {
    forall i :: 0 <= i < |steps| ==> !steps[i].Expire?
  }

  lemma JobsStay(s: State, step: Step)
    requires Enabled(s, step) && !step.Expire?
    ensures s.jobs.Keys <= Apply(s, step).jobs.Keys
  {
    if step.DispatchAll? {
      var t := s.attempts[step.i].target;
      BlockJobsInQueue(s, t.from, t.to);
      AddIngestsEffect(s.jobs, t.from, t.to, Low);
    }
  }

  lemma NewRangeEnters(s: State, step: Step, r: Range)
    requires Enabled(s, step) && r in NewRange(s, step)
    ensures RangeKey(r.from, r.to) !in s.jobs && RangeKey(r.from, r.to) in Apply(s, step).jobs
    ensures RangeAccepted(Apply(s, step), r) && NewRange(s, step) == [r]
  {
  }

  /** While nothing is dropped, no range is added twice. */
  lemma {:induction false} AddedOnce(s: State, steps: seq<Step>)
    requires QueueOk(s) && AttemptsOk(s) && Valid(s, steps) && NothingDropped(steps)
    ensures NoRepeat(Added(s, steps))
    ensures forall r :: r in Added(s, steps) ==> RangeKey(r.from, r.to) !in s.jobs && RangeAccepted(After(s, steps), r)
    decreases |steps|
  {
    if steps != [] {
      var u, rest := Apply(s, steps[0]), steps[1..];
      StepKeepsQueue(s, steps[0]);
      JobsStay(s, steps[0]);
      assert NothingDropped(rest);
      AddedOnce(u, rest);
      RunKeepsQueue(u, rest);
      forall r | r in NewRange(s, steps[0])
        ensures RangeKey(r.from, r.to) !in s.jobs && RangeAccepted(After(s, steps), r) && r !in Added(u, rest)
        ensures NewRange(s, steps[0]) == [r]
      {
        NewRangeEnters(s, steps[0], r);
      }
      FirstIsNew(NewRange(s, steps[0]), Added(u, rest));
    }
  }

  lemma FirstIsNew<T>(first: seq<T>, rest: seq<T>)
    requires NoRepeat(rest) && |first| <= 1 && forall x :: x in first ==> x !in rest
    ensures NoRepeat(first + rest)
  {
    if first == [] {
      assert first + rest == rest;
    } else {
      var all := first + rest;
      assert forall i :: 0 < i < |all| ==> all[i] == rest[i - 1] && all[i] in rest;
    }
  }

  ghost function AsSet(ranges: seq<Range>): (s: set<Range>)
    ensures forall r :: r in s <==> r in ranges
  {
    set r | r in ranges
  }

  lemma {:induction false} SizeOfSet(ranges: seq<Range>)
    requires NoRepeat(ranges)
    ensures |AsSet(ranges)| == |ranges|
  {
    if ranges != [] {
      var n := |ranges| - 1;
      SizeOfSet(ranges[..n]);
      assert AsSet(ranges) == AsSet(ranges[..n]) + {ranges[n]};
    }
  }

  /** In a run that drops no job from the queue the same bound holds for the range jobs that are added,
      counted one by one, with all retries and crashes. */
  lemma RangeJobsAdded(s0: State, steps: seq<Step>, roots: seq<Range>)
    requires Init(s0) && Valid(s0, steps) && NothingDropped(steps) && DailyRoots(After(s0, steps), roots)
    ensures |Added(s0, steps)| + |roots| <= TotalTree(roots)
  {
    InitOk(s0);
    AddedOnce(s0, steps);
    SizeOfSet(Added(s0, steps));
    RangeJobsOfRun(s0, steps, roots, AsSet(Added(s0, steps)));
  }
}
