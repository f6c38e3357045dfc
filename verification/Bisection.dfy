/** The backward check of a range of heights: count, then dispatch the whole range or split it.

    The source counts the half-open range [from, to) but splits and dispatches closed ranges, so the
    right end of a range is never looked at. The lemmas below say exactly what this does. */
module Bisection {

  /** A range of at most this span is dispatched as a whole. */
  const LEAF_SPAN: int := 1000

  datatype Range = Range(from: int, to: int)

  function Span(r: Range): int {
    r.to - r.from
  }

  function Mid(r: Range): int {
    r.from + Span(r) / 2
  }

  function Left(r: Range): Range {
    Range(r.from, Mid(r))
  }

  function Right(r: Range): Range {
    Range(Mid(r) + 1, r.to)
  }

  /** Both bounds are included. */
  function CountInRange(blocks: set<int>, start: int, end: int): nat {
    |set h | h in blocks && start <= h <= end|
  }

  function Missing(blocks: set<int>, r: Range): int {
    Span(r) - CountInRange(blocks, r.from, r.to - 1)
  }

  datatype Decision = NothingMissing | DispatchWhole | SplitInTwo

  function Decide(blocks: set<int>, r: Range): Decision {
    if Missing(blocks, r) > 0 && Span(r) <= LEAF_SPAN then DispatchWhole
    else if Missing(blocks, r) > 0 then SplitInTwo
    else NothingMissing
  }

  ghost predicate Absent(blocks: set<int>, r: Range) {
    exists h :: r.from <= h < r.to && h !in blocks
  }

  /** The heights from lo up to and without hi. */
  function Interval(lo: int, hi: int): (s: set<int>)
    ensures forall h :: h in s <==> lo <= h < hi
    decreases hi - lo
  {
    if hi <= lo then {} else Interval(lo, hi - 1) + {hi - 1}
  }

  lemma {:induction false} IntervalSize(lo: int, hi: int)
    requires lo <= hi
    ensures |Interval(lo, hi)| == hi - lo
    decreases hi - lo
  {
    if lo < hi {
      IntervalSize(lo, hi - 1);
    }
  }

  lemma SubsetSize<T>(s: set<T>, t: set<T>)
    requires s <= t
    ensures |s| <= |t|
    ensures |s| == |t| ==> s == t
  {
    assert t == s + (t - s);
  }

  /** The count is an exact test: it is short of the span iff some height before the right end is
      absent. */
  lemma MissingIsAbsence(blocks: set<int>, r: Range)
    ensures Missing(blocks, r) > 0 <==> Absent(blocks, r)
  {
    var counted := set h | h in blocks && r.from <= h <= r.to - 1;
    if r.from <= r.to {
      var all := Interval(r.from, r.to);
      IntervalSize(r.from, r.to);
      assert counted <= all;
      SubsetSize(counted, all);
      if Absent(blocks, r) {
        var h :| r.from <= h < r.to && h !in blocks;
        assert h in all && h !in counted;
      } else {
        assert counted == all;
      }
    }
  }

  /** What the two children of a split look like: they tile the parent and have nearly equal spans. */
  lemma SplitShape(r: Range)
    requires Span(r) > LEAF_SPAN
    ensures Left(r).from == r.from && Right(r).to == r.to && Right(r).from == Left(r).to + 1
    ensures Span(Left(r)) == Span(r) / 2 && Span(Right(r)) == (Span(r) + 1) / 2 - 1
    ensures LEAF_SPAN / 2 <= Span(Right(r)) <= Span(Left(r)) < Span(r)
  {
  }

  // ---- the tree of ranges, which does not depend on what is stored ----

  /** The leaf of the bisection tree that holds a height. */
  function LeafOf(r: Range, h: int): (leaf: Range)
    requires r.from <= h <= r.to
    ensures r.from <= leaf.from <= h <= leaf.to <= r.to
    decreases Span(r)
  {
    if Span(r) <= LEAF_SPAN then r
    else if h <= Mid(r) then LeafOf(Left(r), h)
    else LeafOf(Right(r), h)
  }

  function Leaves(r: Range): (ls: seq<Range>)
    ensures |ls| > 0
    decreases Span(r)
  {
    if Span(r) <= LEAF_SPAN then [r] else Leaves(Left(r)) + Leaves(Right(r))
  }

  /** Every range the check can create below r, r included. */
  ghost predicate InTree(r: Range, q: Range)
    decreases Span(r)
  {
    q == r || (Span(r) > LEAF_SPAN && (InTree(Left(r), q) || InTree(Right(r), q)))
  }

  /** How many range jobs the check of r creates at most, r's own included. */
  function TreeSize(r: Range): nat
    decreases Span(r)
  {
    if Span(r) <= LEAF_SPAN then 1 else 1 + TreeSize(Left(r)) + TreeSize(Right(r))
  }

  /** The leaves tile the closed range in order: each starts right after the one before. */
  lemma {:induction false} LeavesTile(r: Range)
    ensures var ls := Leaves(r);
            && ls[0].from == r.from
            && ls[|ls| - 1].to == r.to
            && (forall i :: 0 <= i < |ls| - 1 ==> ls[i + 1].from == ls[i].to + 1)
    decreases Span(r)
  {
    if Span(r) > LEAF_SPAN {
      LeavesTile(Left(r));
      LeavesTile(Right(r));
      var ls, lefts, rights := Leaves(r), Leaves(Left(r)), Leaves(Right(r));
      var n := |lefts|;
      forall i | 0 <= i < |ls| - 1
        ensures ls[i + 1].from == ls[i].to + 1
      {
        if i < n - 1 {
          assert ls[i] == lefts[i] && ls[i + 1] == lefts[i + 1];
        } else if i == n - 1 {
          assert ls[i] == lefts[n - 1] && ls[i + 1] == rights[0];
        } else {
          assert ls[i] == rights[i - n] && ls[i + 1] == rights[i - n + 1];
        }
      }
    }
  }

  /** A leaf below a split holds between 501 and 1001 heights. */
  lemma {:induction false} LeafHeights(r: Range)
    requires Span(r) > LEAF_SPAN
    ensures forall i :: 0 <= i < |Leaves(r)| ==> 501 <= Span(Leaves(r)[i]) + 1 <= 1001
    decreases Span(r)
  {
    SplitShape(r);
    if Span(Left(r)) > LEAF_SPAN { LeafHeights(Left(r)); }
    if Span(Right(r)) > LEAF_SPAN { LeafHeights(Right(r)); }
  }

  lemma {:induction false} LeavesFill(r: Range)
    requires Span(r) > LEAF_SPAN
    ensures 501 * |Leaves(r)| <= Span(r) + 1
    decreases Span(r)
  {
    SplitShape(r);
    if Span(Left(r)) > LEAF_SPAN { LeavesFill(Left(r)); }
    if Span(Right(r)) > LEAF_SPAN { LeavesFill(Right(r)); }
  }

  lemma {:induction false} TreeSizeFromLeaves(r: Range)
    ensures TreeSize(r) == 2 * |Leaves(r)| - 1
    decreases Span(r)
  {
    if Span(r) > LEAF_SPAN {
      TreeSizeFromLeaves(Left(r));
      TreeSizeFromLeaves(Right(r));
    }
  }

  /** A root of n heights that has to be split creates at most 2 * (n / 501) - 1 range jobs. */
  lemma RangeJobBound(r: Range)
    requires Span(r) > LEAF_SPAN
    ensures |Leaves(r)| <= (Span(r) + 1) / 501
    ensures TreeSize(r) <= 2 * ((Span(r) + 1) / 501) - 1
  {
    LeavesFill(r);
    TreeSizeFromLeaves(r);
  }

  /** The ranges of the tree as a set. */
  ghost function TreeRanges(r: Range): (s: set<Range>)
    ensures forall q :: q in s <==> InTree(r, q)
    ensures |s| <= TreeSize(r)
    decreases Span(r)
  {
    if Span(r) <= LEAF_SPAN then {r}
    else {r} + (TreeRanges(Left(r)) + TreeRanges(Right(r)))
  }

  /** The children of a split range of the tree are in the tree. */
  lemma {:induction false} ChildInTree(r: Range, q: Range)
    requires InTree(r, q) && Span(q) > LEAF_SPAN
    ensures InTree(r, Left(q)) && InTree(r, Right(q))
    decreases Span(r)
  {
    assert InTree(Left(q), Left(q)) && InTree(Right(q), Right(q));
    if q != r {
      if InTree(Left(r), q) { ChildInTree(Left(r), q); } else { ChildInTree(Right(r), q); }
    }
  }

  lemma {:induction false} LeafOfIsLeaf(r: Range, h: int)
    requires r.from <= h <= r.to
    ensures LeafOf(r, h) in Leaves(r) && Span(LeafOf(r, h)) <= LEAF_SPAN && InTree(r, LeafOf(r, h))
    decreases Span(r)
  {
    if Span(r) > LEAF_SPAN {
      if h <= Mid(r) { LeafOfIsLeaf(Left(r), h); } else { LeafOfIsLeaf(Right(r), h); }
    }
  }

  // ---- one sweep over a fixed table ----

  /** The heights whose ingest job a fault-free sweep of r adds while the table stays as it is. */
  function Sweep(blocks: set<int>, r: Range): set<int>
    decreases Span(r)
  {
    match Decide(blocks, r)
    case NothingMissing => {}
    case DispatchWhole => Interval(r.from, r.to + 1)
    case SplitInTwo => Sweep(blocks, Left(r)) + Sweep(blocks, Right(r))
  }

  /** Exactly the heights whose leaf misses something before its right end are dispatched. In
      particular every ancestor of such a leaf sees a positive count. */
  lemma {:induction false} SweepExact(blocks: set<int>, r: Range, h: int)
    ensures h in Sweep(blocks, r) <==> r.from <= h <= r.to && Absent(blocks, LeafOf(r, h))
    decreases Span(r)
  {
    MissingIsAbsence(blocks, r);
    if Span(r) > LEAF_SPAN {
      SplitShape(r);
      SweepExact(blocks, Left(r), h);
      SweepExact(blocks, Right(r), h);
    }
  }

  /** A missing height is left behind iff it is the right end of its leaf and the only one missing
      there: every other missing height of the closed range is dispatched. */
  lemma MissedExactly(blocks: set<int>, r: Range, h: int)
    requires r.from <= h <= r.to && h !in blocks
    ensures h !in Sweep(blocks, r)
            <==> h == LeafOf(r, h).to && forall g :: LeafOf(r, h).from <= g < h ==> g in blocks
  {
    SweepExact(blocks, r, h);
    var leaf := LeafOf(r, h);
    if leaf.from <= h < leaf.to {
      assert Absent(blocks, leaf);
    }
  }

  /** The claim that every missing height below the head is dispatched is false: a midpoint that is
      alone in missing is dropped, whatever the range. */
  lemma LoneMidpointIsDropped(blocks: set<int>, r: Range)
    requires Span(r) > LEAF_SPAN
    requires forall h :: r.from <= h <= r.to ==> (h in blocks <==> h != Mid(r))
    ensures r.from <= Mid(r) < r.to && Mid(r) !in blocks && Sweep(blocks, r) == {}
  {
    MissingIsAbsence(blocks, r);
    MissingIsAbsence(blocks, Left(r));
    MissingIsAbsence(blocks, Right(r));
    SplitShape(r);
    assert Mid(r) !in blocks;
  }

  function RightEnds(ls: seq<Range>): (s: set<int>)
    ensures |s| <= |ls|
    ensures forall q :: q in ls ==> q.to in s
  {
    if ls == [] then {} else RightEnds(ls[..|ls| - 1]) + {ls[|ls| - 1].to}
  }

  /** What a sweep leaves behind is at most one height for each 501 of the root. */
  lemma LeftBehindBound(blocks: set<int>, r: Range, left: set<int>)
    requires Span(r) > LEAF_SPAN
    requires forall h :: h in left ==> r.from <= h <= r.to && h !in blocks && h !in Sweep(blocks, r)
    ensures |left| <= (Span(r) + 1) / 501
  {
    forall h | h in left
      ensures h in RightEnds(Leaves(r))
    {
      MissedExactly(blocks, r, h);
      LeafOfIsLeaf(r, h);
    }
    SubsetSize(left, RightEnds(Leaves(r)));
    RangeJobBound(r);
  }

  // ---- a sweep as the queue runs it: one pending range at a time, in any order ----

  /** Range jobs still to run, and heights dispatched so far. */
  datatype Worklist = Worklist(pending: seq<Range>, dispatched: set<int>)

  /** Runs the i-th pending range; its children go to the back. */
  function RunOne(blocks: set<int>, w: Worklist, i: nat): Worklist
    requires i < |w.pending|
  {
    var r := w.pending[i];
    var rest := w.pending[..i] + w.pending[i + 1..];
    match Decide(blocks, r)
    case NothingMissing => Worklist(rest, w.dispatched)
    case DispatchWhole => Worklist(rest, w.dispatched + Interval(r.from, r.to + 1))
    case SplitInTwo => Worklist(rest + [Left(r), Right(r)], w.dispatched)
  }

  /** How many range jobs the pending ones can still create, themselves included. */
  function TotalTree(pending: seq<Range>): nat {
    if pending == [] then 0 else TotalTree(pending[..|pending| - 1]) + TreeSize(pending[|pending| - 1])
  }

  lemma {:induction false} TotalTreeRemove(pending: seq<Range>, i: nat)
    requires i < |pending|
    ensures TotalTree(pending) == TotalTree(pending[..i] + pending[i + 1..]) + TreeSize(pending[i])
  {
    var n := |pending|;
    if i == n - 1 {
      assert pending[..i] + pending[i + 1..] == pending[..n - 1];
    } else {
      var head := pending[..n - 1];
      TotalTreeRemove(head, i);
      var rest := pending[..i] + pending[i + 1..];
      assert rest[..n - 2] == head[..i] + head[i + 1..];
      assert rest[n - 2] == pending[n - 1];
    }
  }

  lemma TotalTreeAppend(pending: seq<Range>, r: Range)
    ensures TotalTree(pending + [r]) == TotalTree(pending) + TreeSize(r)
  {
    assert (pending + [r])[..|pending|] == pending;
  }

  /** Every successful run of a range job lowers the number of range jobs that can still come: each
      pending range counts as often as its span can be split, and a split uses up one. */
  lemma RunOneDecreases(blocks: set<int>, w: Worklist, i: nat)
    requires i < |w.pending|
    ensures TotalTree(RunOne(blocks, w, i).pending) < TotalTree(w.pending)
  {
    var r := w.pending[i];
    var rest := w.pending[..i] + w.pending[i + 1..];
    TotalTreeRemove(w.pending, i);
    if Decide(blocks, r).SplitInTwo? {
      SplitShape(r);
      TotalTreeAppend(rest, Left(r));
      TotalTreeAppend(rest + [Left(r)], Right(r));
      assert rest + [Left(r), Right(r)] == (rest + [Left(r)]) + [Right(r)];
    }
  }

  /** The heights that are dispatched, or will be if the table stays as it is. */
  ghost predicate Due(blocks: set<int>, w: Worklist, h: int) {
    h in w.dispatched || exists i :: 0 <= i < |w.pending| && h in Sweep(blocks, w.pending[i])
  }

  /** What is due of one range once it has run on some table. */
  ghost predicate DueAfterRun(blocks: set<int>, table: set<int>, r: Range, h: int) {
    match Decide(table, r)
    case NothingMissing => false
    case DispatchWhole => r.from <= h <= r.to
    case SplitInTwo => h in Sweep(blocks, Left(r)) || h in Sweep(blocks, Right(r))
  }

  lemma RunOnLaterTable(blocks: set<int>, table: set<int>, r: Range, h: int)
    requires blocks <= table && DueAfterRun(blocks, table, r, h)
    ensures h in Sweep(blocks, r)
  {
    MissingIsAbsence(table, r);
    MissingIsAbsence(blocks, r);
  }

  lemma RunOnEarlierTable(blocks: set<int>, table: set<int>, r: Range, h: int)
    requires table <= blocks && h in Sweep(blocks, r)
    ensures DueAfterRun(blocks, table, r, h)
  {
    MissingIsAbsence(table, r);
    MissingIsAbsence(blocks, r);
    SweepExact(blocks, r, h);
  }

  lemma DueAroundRun(blocks: set<int>, table: set<int>, w: Worklist, i: nat, h: int)
    requires i < |w.pending|
    ensures Due(blocks, RunOne(table, w, i), h)
            <==> h in w.dispatched || DueAfterRun(blocks, table, w.pending[i], h)
                 || exists j :: 0 <= j < |w.pending| && j != i && h in Sweep(blocks, w.pending[j])
  {
    var r := w.pending[i];
    var rest := w.pending[..i] + w.pending[i + 1..];
    var next := RunOne(table, w, i);
    forall j | 0 <= j < |w.pending| && j != i
      ensures exists l :: 0 <= l < |next.pending| && next.pending[l] == w.pending[j]
    {
      var l := if j < i then j else j - 1;
      assert rest[l] == w.pending[j];
      assert next.pending[l] == rest[l];
    }
    forall l | 0 <= l < |rest|
      ensures exists j :: 0 <= j < |w.pending| && j != i && w.pending[j] == rest[l]
    {
      var j := if l < i then l else l + 1;
      assert rest[l] == w.pending[j];
    }
    if Decide(table, r).SplitInTwo? {
      assert next.pending[|rest|] == Left(r) && next.pending[|rest| + 1] == Right(r);
    }
  }

  /** Running a range on a table between two others: nothing new becomes due by the smaller table, and
      nothing due by the larger one is lost. */
  lemma RunOneBetween(first: set<int>, table: set<int>, last: set<int>, w: Worklist, i: nat, h: int)
    requires i < |w.pending| && first <= table <= last
    ensures Due(first, RunOne(table, w, i), h) ==> Due(first, w, h)
    ensures Due(last, w, h) ==> Due(last, RunOne(table, w, i), h)
  {
    DueAroundRun(first, table, w, i, h);
    DueAroundRun(last, table, w, i, h);
    if DueAfterRun(first, table, w.pending[i], h) { RunOnLaterTable(first, table, w.pending[i], h); }
    if h in Sweep(last, w.pending[i]) { RunOnEarlierTable(last, table, w.pending[i], h); }
  }

  /** One turn of the queue: which pending range runs, and what is stored by then. */
  datatype Turn = Turn(index: nat, table: set<int>)

  predicate Schedule(w: Worklist, turns: seq<Turn>)
    decreases |turns|
  {
    turns == [] || (turns[0].index < |w.pending| && Schedule(RunOne(turns[0].table, w, turns[0].index), turns[1..]))
  }

  function RunAll(w: Worklist, turns: seq<Turn>): Worklist
    requires Schedule(w, turns)
    decreases |turns|
  {
    if turns == [] then w else RunAll(RunOne(turns[0].table, w, turns[0].index), turns[1..])
  }

  /** Every table lies between the first and the last. */
  ghost predicate Between(first: set<int>, turns: seq<Turn>, last: set<int>) {
    forall i :: 0 <= i < |turns| ==> first <= turns[i].table <= last
  }

  lemma {:induction false} RunAllBetween(first: set<int>, w: Worklist, turns: seq<Turn>, last: set<int>)
    requires Schedule(w, turns) && Between(first, turns, last)
    ensures |turns| + TotalTree(RunAll(w, turns).pending) <= TotalTree(w.pending)
    ensures forall h :: Due(first, RunAll(w, turns), h) ==> Due(first, w, h)
    ensures forall h :: Due(last, w, h) ==> Due(last, RunAll(w, turns), h)
    decreases |turns|
  {
    if turns != [] {
      var next := RunOne(turns[0].table, w, turns[0].index);
      RunOneDecreases(turns[0].table, w, turns[0].index);
      forall h
        ensures Due(first, next, h) ==> Due(first, w, h)
        ensures Due(last, w, h) ==> Due(last, next, h)
      {
        RunOneBetween(first, turns[0].table, last, w, turns[0].index, h);
      }
      RunAllBetween(first, next, turns[1..], last);
    }
  }

  /** Whatever the order in which the queue runs the range jobs, and however the table grows meanwhile,
      a sweep of n heights that have to be split ends after at most 2 * (n / 501) - 1 runs, and what it
      dispatched lies between what a sweep of the last table and one of the first would have dispatched. */
  lemma SweepWhileGrowing(r: Range, first: set<int>, turns: seq<Turn>, last: set<int>)
    requires Schedule(Worklist([r], {}), turns) && Between(first, turns, last)
    ensures |turns| <= TreeSize(r)
    ensures |turns| <= if Span(r) <= LEAF_SPAN then 1 else 2 * ((Span(r) + 1) / 501) - 1
    ensures RunAll(Worklist([r], {}), turns).pending == []
            ==> Sweep(last, r) <= RunAll(Worklist([r], {}), turns).dispatched <= Sweep(first, r)
  {
    var start := Worklist([r], {});
    assert [r] == [] + [r];
    TotalTreeAppend([], r);
    assert start.pending[0] == r;
    RunAllBetween(first, start, turns, last);
    if Span(r) > LEAF_SPAN { RangeJobBound(r); }
    var end := RunAll(start, turns);
    if end.pending == [] {
      forall h
        ensures h in end.dispatched ==> h in Sweep(first, r)
        ensures h in Sweep(last, r) ==> h in end.dispatched
      {
        assert Due(first, end, h) ==> Due(first, start, h);
        assert Due(last, start, h) ==> Due(last, end, h);
      }
    }
  }

  /** On a table that does not change the dispatched heights are therefore exactly Sweep. */
  lemma SweepIsOrderIndependent(r: Range, blocks: set<int>, turns: seq<Turn>)
    requires Schedule(Worklist([r], {}), turns) && Between(blocks, turns, blocks)
    ensures RunAll(Worklist([r], {}), turns).pending == []
            ==> RunAll(Worklist([r], {}), turns).dispatched == Sweep(blocks, r)
  {
    SweepWhileGrowing(r, blocks, turns, blocks);
  }
}
