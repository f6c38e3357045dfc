/** Which heights the live scheduler asks for over a sequence of ticks. */
module LiveWindow {
  import opened JobKeys
  import opened Queues

  /** How many heights one tick dispatches, the head included. */
  const LIVE_BLOCKS: int := 20

  /** One tick at a given head; the order in which it adds its jobs does not matter. */
  function Tick(jobs: Jobs, head: int): Jobs {
    AddIngests(jobs, head - LIVE_BLOCKS + 1, head, High)
  }

  function Ticks(jobs: Jobs, heads: seq<int>): Jobs {
    if heads == [] then jobs else Tick(Ticks(jobs, heads[..|heads| - 1]), heads[|heads| - 1])
  }

  predicate NonDecreasing(heads: seq<int>) {
    forall i, j :: 0 <= i <= j < |heads| ==> heads[i] <= heads[j]
  }

  ghost predicate Requested(heads: seq<int>, h: int) {
    exists i :: 0 <= i < |heads| && heads[i] - 20 < h <= heads[i]
  }

  /** The jump between two consecutive ticks passed over h. */
  ghost predicate InGap(heads: seq<int>, h: int) {
    exists i :: 0 <= i < |heads| - 1 && heads[i] + 1 <= h <= heads[i + 1] - 20
  }

  lemma RequestedGrows(heads: seq<int>, h: int)
    requires heads != []
    ensures var n := |heads| - 1;
            Requested(heads, h) <==> Requested(heads[..n], h) || heads[n] - 20 < h <= heads[n]
  {
    var n := |heads| - 1;
    var before := heads[..n];
    if Requested(before, h) {
      var i :| 0 <= i < n && before[i] - 20 < h <= before[i];
      assert heads[i] == before[i];
    }
    if Requested(heads, h) {
      var i :| 0 <= i < |heads| && heads[i] - 20 < h <= heads[i];
      assert i < n ==> before[i] == heads[i];
    }
  }

  /** What a sequence of ticks leaves in the queue: the old jobs, untouched, and one ingest job for
      each requested height that had none. */
  ghost predicate TickedJobs(jobs: Jobs, heads: seq<int>, u: Jobs) {
    && (forall k :: k in u <==> k in jobs || (k.BlockKey? && Requested(heads, k.height)))
    && (forall k :: k in jobs ==> u[k] == jobs[k])
    && (forall k :: k in u && k !in jobs ==> u[k] == Job(Ingest(k.height), Waiting, 5, High))
  }

  lemma {:induction false} TicksEffect(jobs: Jobs, heads: seq<int>)
    ensures TickedJobs(jobs, heads, Ticks(jobs, heads))
  {
    if heads != [] {
      var n := |heads| - 1;
      var before := heads[..n];
      TicksEffect(jobs, before);
      AddIngestsEffect(Ticks(jobs, before), heads[n] - 20 + 1, heads[n], High);
      forall h
        ensures Requested(heads, h) <==> Requested(before, h) || heads[n] - 20 < h <= heads[n]
      {
        RequestedGrows(heads, h);
      }
    }
  }

  lemma GapStays(heads: seq<int>, h: int)
    requires |heads| > 0
    ensures InGap(heads[..|heads| - 1], h) ==> InGap(heads, h)
  {
    var before := heads[..|heads| - 1];
    if InGap(before, h) {
      var i :| 0 <= i < |before| - 1 && before[i] + 1 <= h <= before[i + 1] - 20;
      assert heads[i] + 1 <= h <= heads[i + 1] - 20;
    }
  }

  /** Between the first window and the last head, the heights never asked for are exactly those a jump
      of more than 20 passed over. */
  lemma {:induction false} UncoveredHeights(heads: seq<int>, h: int)
    requires |heads| > 0 && NonDecreasing(heads)
    requires heads[0] - 20 < h <= heads[|heads| - 1]
    ensures !Requested(heads, h) <==> InGap(heads, h)
  {
    var n := |heads| - 1;
    if InGap(heads, h) {
      var i :| 0 <= i < n && heads[i] + 1 <= h <= heads[i + 1] - 20;
      forall j | 0 <= j < |heads|
        ensures !(heads[j] - 20 < h <= heads[j])
      {
        assert j <= i ==> heads[j] <= heads[i];
        assert j > i ==> heads[i + 1] <= heads[j];
      }
    } else if n > 0 {
      if h > heads[n - 1] {
        assert h > heads[n - 1 + 1] - 20;
      } else {
        var before := heads[..n];
        GapStays(heads, h);
        UncoveredHeights(before, h);
        var i :| 0 <= i < n && before[i] - 20 < h <= before[i];
        assert heads[i] == before[i];
      }
    } else {
      assert heads[0] - 20 < h <= heads[0];
    }
  }

  /** The requested heights form one interval iff no two consecutive heads are more than 20 apart. */
  lemma ContiguousIffSmallAdvances(heads: seq<int>)
    requires |heads| > 0 && NonDecreasing(heads)
    ensures (forall h :: heads[0] - 20 < h <= heads[|heads| - 1] ==> Requested(heads, h))
            <==> (forall i :: 0 <= i < |heads| - 1 ==> heads[i + 1] - heads[i] <= 20)
  {
    var n := |heads| - 1;
    if forall i :: 0 <= i < n ==> heads[i + 1] - heads[i] <= 20 {
      forall h | heads[0] - 20 < h <= heads[n]
        ensures Requested(heads, h)
      {
        UncoveredHeights(heads, h);
        assert !InGap(heads, h);
      }
    } else {
      var i :| 0 <= i < n && heads[i + 1] - heads[i] > 20;
      var h := heads[i] + 1;
      assert heads[0] <= heads[i] && heads[i + 1] <= heads[n];
      assert heads[i] + 1 <= h <= heads[i + 1] - 20;
      assert InGap(heads, h);
      UncoveredHeights(heads, h);
    }
  }
}
