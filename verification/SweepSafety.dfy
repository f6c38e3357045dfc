/** What the daily check achieves over every interleaving of the protocol. */
module SweepSafety {
  import opened JobKeys
  import opened Queues
  import opened Bisection
  import opened Ingestion
  import opened QueueInvariant

  /** Nothing is waiting and nothing is being worked on. */
  ghost predicate Quiescent(s: State) {
    forall k :: k in s.jobs ==> !Unfinished(s.jobs[k])
  }

  ghost predicate FailedForGood(s: State, key: JobKey) {
    key in s.jobs && s.jobs[key].status.Failed?
  }

  /** Range q was accepted under this key, it was checked below r and it covers the height. */
  ghost predicate CheckedIn(s: State, key: JobKey, r: Range, q: Range, h: int) {
    && key in s.accepted && s.accepted[key] == Verify(q.from, q.to)
    && InTree(r, q) && q.from <= h <= q.to
  }

  /** The right end of a range in which nothing else is missing: never counted, never dispatched. */
  ghost predicate UncountedEnd(s: State, q: Range, h: int) {
    h == q.to && !Absent(s.blocks, q)
  }

  ghost predicate Explained(s: State, r: Range, h: int) {
    || FailedForGood(s, BlockKey(h))
    || exists key, q :: CheckedIn(s, key, r, q, h) && (FailedForGood(s, key) || UncountedEnd(s, q, h))
  }

  lemma ExplainedBelow(s: State, r: Range, child: Range, h: int)
    requires Span(r) > LEAF_SPAN && (child == Left(r) || child == Right(r))
    requires Explained(s, child, h)
    ensures Explained(s, r, h)
  {
    if !FailedForGood(s, BlockKey(h)) {
      var key, q :| CheckedIn(s, key, child, q, h) && (FailedForGood(s, key) || UncountedEnd(s, q, h));
      assert CheckedIn(s, key, r, q, h);
    }
  }

  lemma {:induction false} Explain(s: State, key: JobKey, r: Range, h: int)
    requires QueueOk(s) && Quiescent(s)
    requires key in s.accepted && s.accepted[key] == Verify(r.from, r.to)
    requires r.from <= h <= r.to && h !in s.blocks
    ensures Explained(s, r, h)
    decreases Span(r)
  {
    assert Settled(s, key);
    assert CheckedIn(s, key, r, r, h);
    if !FailedForGood(s, key) && !UncountedEnd(s, r, h) {
      assert Absent(s.blocks, r);
      if Span(r) <= LEAF_SPAN {
        assert BlockKey(h) in s.accepted;
        assert Settled(s, BlockKey(h)) && Fits(s, BlockKey(h), s.accepted[BlockKey(h)]);
      } else {
        SplitShape(r);
        var child := if h <= Mid(r) then Left(r) else Right(r);
        var childKey := RangeKey(child.from, child.to);
        assert RangeAccepted(s, child);
        assert Fits(s, childKey, s.accepted[childKey]);
        Explain(s, childKey, child, h);
        ExplainedBelow(s, r, child, h);
      }
    }
  }

  /** Over every run, once the queue is quiet, a height of a checked range (a daily root or any other)
      that is still not stored has one of three reasons: its own ingest job failed for good, a range
      job above it failed for good, or it is the right end of a range in which it alone is missing. */
  lemma SweepSafety(s0: State, steps: seq<Step>, key: JobKey, r: Range, h: int)
    requires Init(s0) && Valid(s0, steps)
    requires Quiescent(After(s0, steps))
    requires key in After(s0, steps).accepted && After(s0, steps).accepted[key] == Verify(r.from, r.to)
    requires r.from <= h <= r.to && h !in After(s0, steps).blocks
    ensures Explained(After(s0, steps), r, h)
  {
    ReachableOk(s0, steps);
    Explain(After(s0, steps), key, r, h);
  }

  /** A daily tick puts the whole stretch from the starting height to the head it read under check, for
      the rest of the run, however much the chain grew between the reading and the adding. */
  lemma DailyRootIsAccepted(s0: State, before: seq<Step>, end: int, after: seq<Step>)
    requires Init(s0) && Valid(s0, before) && Enabled(After(s0, before), DailyAdd(end))
    requires Valid(Apply(After(s0, before), DailyAdd(end)), after)
    ensures var s := After(s0, before);
            var u := After(Apply(s, DailyAdd(end)), after);
            AutoKey(s.nextAuto) in u.accepted && u.accepted[AutoKey(s.nextAuto)] == Verify(s.start, end)
  {
    var s := After(s0, before);
    ReachableOk(s0, before);
    AddAutoKeeps(s, Verify(s.start, end), Low);
    RunKeepsQueue(Apply(s, DailyAdd(end)), after);
  }

  lemma {:induction false} EndInTreeIsLeafEnd(r: Range, q: Range)
    requires InTree(r, q) && r.from <= q.from <= q.to <= r.to
    ensures LeafOf(r, q.to).to == q.to && q.from <= LeafOf(r, q.to).from
    decreases Span(r)
  {
    if q == r {
      RightEndIsLeafEnd(r);
    } else {
      SplitShape(r);
      if InTree(Left(r), q) {
        InTreeBounds(Left(r), q);
        EndInTreeIsLeafEnd(Left(r), q);
      } else {
        InTreeBounds(Right(r), q);
        EndInTreeIsLeafEnd(Right(r), q);
      }
    }
  }

  lemma {:induction false} RightEndIsLeafEnd(r: Range)
    requires r.from <= r.to
    ensures LeafOf(r, r.to).to == r.to
    decreases Span(r)
  {
    if Span(r) > LEAF_SPAN {
      SplitShape(r);
      RightEndIsLeafEnd(Right(r));
    }
  }

  lemma {:induction false} InTreeBounds(r: Range, q: Range)
    requires InTree(r, q) && r.from <= r.to
    ensures r.from <= q.from <= q.to <= r.to
    decreases Span(r)
  {
    if q != r {
      SplitShape(r);
      if InTree(Left(r), q) { InTreeBounds(Left(r), q); } else { InTreeBounds(Right(r), q); }
    }
  }

  /** Without permanent failures, what a quiet queue leaves missing in a checked range are the right
      ends of leaves that are otherwise complete, the same heights a sweep of the final table drops. */
  lemma FaultFreeSweep(s: State, key: JobKey, r: Range, h: int)
    requires QueueOk(s) && Quiescent(s)
    requires forall k :: k in s.jobs ==> !s.jobs[k].status.Failed?
    requires key in s.accepted && s.accepted[key] == Verify(r.from, r.to)
    requires r.from <= h <= r.to && h !in s.blocks
    ensures h == LeafOf(r, h).to && h !in Sweep(s.blocks, r)
  {
    Explain(s, key, r, h);
    var k, q :| CheckedIn(s, k, r, q, h) && UncountedEnd(s, q, h);
    InTreeBounds(r, q);
    EndInTreeIsLeafEnd(r, q);
    MissedExactly(s.blocks, r, h);
  }

  /** So one height at most is left for each 501 heights of a root that was split. */
  lemma FaultFreeBound(s0: State, steps: seq<Step>, key: JobKey, r: Range, missing: set<int>)
    requires Init(s0) && Valid(s0, steps)
    requires var s := After(s0, steps);
             && Quiescent(s)
             && (forall k :: k in s.jobs ==> !s.jobs[k].status.Failed?)
             && key in s.accepted && s.accepted[key] == Verify(r.from, r.to)
             && (forall h :: h in missing ==> r.from <= h <= r.to && h !in s.blocks)
    requires Span(r) > LEAF_SPAN
    ensures |missing| <= (Span(r) + 1) / 501
  {
    var s := After(s0, steps);
    ReachableOk(s0, steps);
    forall h | h in missing
      ensures h !in Sweep(s.blocks, r)
    {
      FaultFreeSweep(s, key, r, h);
    }
    LeftBehindBound(s.blocks, r, missing);
  }
}
