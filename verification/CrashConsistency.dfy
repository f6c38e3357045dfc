/** What concurrent and interrupted ingest attempts can do to the block and transaction tables. */
module CrashConsistency {
  import opened JobKeys
  import opened Queues
  import opened Bisection
  import opened Ingestion
  import Q = QueueInvariant

  /** Some attempt wrote the block row of h and has not written its transactions: it is between the
      two saves now, or it stopped there. */
  ghost predicate Interrupted(s: State, h: int) {
    exists i :: 0 <= i < |s.attempts| && s.attempts[i].target == Ingest(h) && s.attempts[i].progress.SavedBlock?
  }

  ghost predicate TablesOk(s: State) {
    && ChainOk(s)
    && TxsHaveBlocks(s)
    && (forall h :: h in s.blocks ==> h in s.chain)
    && (forall h :: h in s.blocks ==> BlockComplete(s, h) || Interrupted(s, h))
  }

  ghost predicate SameTables(s: State, u: State) {
    u.head == s.head && u.chain == s.chain && u.blocks == s.blocks && u.txs == s.txs
  }

  /** The tables are as before, and so are the ingest attempts, but for some that may have stopped. */
  ghost predicate Undisturbed(s: State, u: State) {
    && SameTables(s, u)
    && |u.attempts| == |s.attempts|
    && (forall i :: 0 <= i < |s.attempts| ==> u.attempts[i].target == s.attempts[i].target)
    && (forall i :: 0 <= i < |s.attempts| && s.attempts[i].target.Ingest?
                    ==> u.attempts[i].progress == s.attempts[i].progress)
    && (forall i :: 0 <= i < |s.attempts| && u.attempts[i].running ==> s.attempts[i].running)
  }

  predicate IsRangeStep(step: Step) {
    step.Count? || step.AddFirst? || step.AddSecond? || step.DispatchAll?
  }

  predicate IsLastStep(step: Step) {
    step.Complete? || step.Fail? || step.Crash?
  }

  predicate IsQueueStep(step: Step) {
    step.LiveAdd? || step.DailyAdd? || step.FailSafe? || step.Stall? || step.Expire?
  }

  lemma RangeStepDisturbsNothing(s: State, step: Step)
    requires Enabled(s, step) && IsRangeStep(step)
    ensures Undisturbed(s, Apply(s, step))
  {
  }

  lemma LastStepDisturbsNothing(s: State, step: Step)
    requires Enabled(s, step) && IsLastStep(step)
    ensures Undisturbed(s, Apply(s, step))
  {
  }

  lemma QueueStepDisturbsNothing(s: State, step: Step)
    requires Enabled(s, step) && IsQueueStep(step)
    ensures Undisturbed(s, Apply(s, step))
  {
  }

  predicate IsQuiet(step: Step) {
    IsRangeStep(step) || IsLastStep(step) || IsQueueStep(step)
  }

  lemma QuietStep(s: State, step: Step)
    requires Enabled(s, step) && IsQuiet(step)
    ensures Undisturbed(s, Apply(s, step))
  {
    if IsRangeStep(step) {
      RangeStepDisturbsNothing(s, step);
    } else if IsLastStep(step) {
      LastStepDisturbsNothing(s, step);
    } else {
      QueueStepDisturbsNothing(s, step);
    }
  }

  /** A change that leaves the tables alone and moves no attempt out of the gap between the saves. */
  lemma TablesUntouched(s: State, u: State)
    requires TablesOk(s) && SameTables(s, u)
    requires |s.attempts| <= |u.attempts|
    requires forall i :: 0 <= i < |s.attempts| && s.attempts[i].target.Ingest? && s.attempts[i].progress.SavedBlock?
                         ==> u.attempts[i].progress.SavedBlock? && u.attempts[i].target == s.attempts[i].target
    ensures TablesOk(u)
  {
    forall h | h in u.blocks
      ensures BlockComplete(u, h) || Interrupted(u, h)
    {
      if !BlockComplete(s, h) {
        var i :| 0 <= i < |s.attempts| && s.attempts[i].target == Ingest(h) && s.attempts[i].progress.SavedBlock?;
        assert u.attempts[i].target == Ingest(h);
      }
    }
  }

  lemma GrowKeepsTables(s: State, hashes: set<Hash>)
    requires TablesOk(s) && Enabled(s, Grow(hashes))
    ensures TablesOk(Apply(s, Grow(hashes)))
  {
    var u := Apply(s, Grow(hashes));
    forall h | h in u.blocks
      ensures BlockComplete(u, h) || Interrupted(u, h)
    {
      assert u.chain[h] == s.chain[h];
      if !BlockComplete(s, h) {
        var i :| 0 <= i < |s.attempts| && s.attempts[i].target == Ingest(h) && s.attempts[i].progress.SavedBlock?;
        assert u.attempts[i].target == Ingest(h);
      }
    }
  }

  lemma SaveBlockKeepsTables(s: State, i: nat)
    requires TablesOk(s) && Enabled(s, SaveBlock(i))
    ensures TablesOk(Apply(s, SaveBlock(i)))
  {
    var u := Apply(s, SaveBlock(i));
    var g := s.attempts[i].target.height;
    assert u.attempts[i].target == Ingest(g) && u.attempts[i].progress.SavedBlock?;
    forall h | h in u.blocks
      ensures BlockComplete(u, h) || Interrupted(u, h)
    {
      if h != g && !BlockComplete(s, h) {
        var j :| 0 <= j < |s.attempts| && s.attempts[j].target == Ingest(h) && s.attempts[j].progress.SavedBlock?;
        assert u.attempts[j].target == Ingest(h) && u.attempts[j].progress.SavedBlock?;
      }
    }
  }

  lemma SaveTxsKeepsTables(s: State, i: nat)
    requires TablesOk(s) && Enabled(s, SaveTxs(i)) && s.attempts[i].target.height in s.blocks
    ensures TablesOk(Apply(s, SaveTxs(i)))
  {
    var u := Apply(s, SaveTxs(i));
    var g := s.attempts[i].target.height;
    forall h | h in u.blocks
      ensures BlockComplete(u, h) || Interrupted(u, h)
    {
      if h != g && !BlockComplete(s, h) {
        var j :| 0 <= j < |s.attempts| && s.attempts[j].target == Ingest(h) && s.attempts[j].progress.SavedBlock?;
        assert u.attempts[j] == s.attempts[j];
      }
    }
  }

  lemma BeginKeepsTables(s: State, key: JobKey)
    requires TablesOk(s) && Enabled(s, Begin(key))
    ensures TablesOk(Apply(s, Begin(key)))
  {
    TablesUntouched(s, Apply(s, Begin(key)));
  }

  lemma LookKeepsTables(s: State, i: nat)
    requires TablesOk(s) && Enabled(s, Look(i))
    ensures TablesOk(Apply(s, Look(i)))
  {
    TablesUntouched(s, Apply(s, Look(i)));
  }

  lemma QuietStepKeepsTables(s: State, step: Step)
    requires TablesOk(s) && Enabled(s, step) && IsQuiet(step)
    ensures TablesOk(Apply(s, step))
  {
    QuietStep(s, step);
    TablesUntouched(s, Apply(s, step));
  }

  /** Every step keeps the tables consistent. That the block row is there when its transactions are
      saved is part of the queue invariant's bookkeeping of attempts. */
  lemma StepKeepsTables(s: State, step: Step)
    requires TablesOk(s) && Q.AttemptsOk(s) && Enabled(s, step)
    ensures TablesOk(Apply(s, step))
  {
    match step {
      case Grow(hashes) => GrowKeepsTables(s, hashes);
      case SaveBlock(i) => SaveBlockKeepsTables(s, i);
      case SaveTxs(i) =>
        assert Q.AttemptOk(s, s.attempts[i]);
        SaveTxsKeepsTables(s, i);
      case Begin(key) => BeginKeepsTables(s, key);
      case Look(i) => LookKeepsTables(s, i);
      case _ => QuietStepKeepsTables(s, step);
    }
  }

  lemma {:induction false} RunKeepsTables(s: State, steps: seq<Step>)
    requires TablesOk(s) && Q.QueueOk(s) && Q.AttemptsOk(s) && Valid(s, steps)
    ensures TablesOk(After(s, steps))
    decreases |steps|
  {
    if steps != [] {
      StepKeepsTables(s, steps[0]);
      Q.StepKeepsQueue(s, steps[0]);
      RunKeepsTables(Apply(s, steps[0]), steps[1..]);
    }
  }

  /** In every reachable state each stored transaction's block is stored, and a stored block lacks
      some of its transactions only if an attempt at it is, or stopped, between the two saves. */
  lemma CrashConsistency(s0: State, steps: seq<Step>)
    requires Init(s0) && Valid(s0, steps)
    ensures forall t :: t in After(s0, steps).txs ==> After(s0, steps).txs[t] in After(s0, steps).blocks
    ensures forall h :: h in After(s0, steps).blocks ==>
                        h in After(s0, steps).chain &&
                        (BlockComplete(After(s0, steps), h) || Interrupted(After(s0, steps), h))
  {
    Q.InitOk(s0);
    RunKeepsTables(s0, steps);
  }

  // ---- an incomplete block is never repaired ----

  /** No attempt that is still running can write the transactions of h. */
  ghost predicate NoWriter(s: State, h: int) {
    forall i :: 0 <= i < |s.attempts| && s.attempts[i].running && s.attempts[i].target == Ingest(h)
                ==> s.attempts[i].progress.Begun? || s.attempts[i].progress.Finished?
  }

  ghost predicate Stranded(s: State, h: int) {
    h in s.blocks && h in s.chain && !BlockComplete(s, h) && NoWriter(s, h)
  }

  /** Rows of h neither come nor go. */
  ghost predicate SameRows(s: State, u: State, h: int)
    requires h in s.chain
  {
    forall t :: t in s.chain[h] ==> (t in u.txs <==> t in s.txs)
  }

  lemma SaveTxsKeepsStranded(s: State, i: nat, h: int)
    requires ChainOk(s) && Enabled(s, SaveTxs(i)) && Stranded(s, h)
    ensures Stranded(Apply(s, SaveTxs(i)), h) && SameRows(s, Apply(s, SaveTxs(i)), h)
  {
    var u := Apply(s, SaveTxs(i));
    var g := s.attempts[i].target.height;
    assert g != h;
    assert s.chain[g] !! s.chain[h];
    var t :| t in s.chain[h] && t !in s.txs;
    assert t in u.chain[h] && t !in u.txs;
  }

  /** A change that leaves chain and transactions alone and starts no writer of h keeps h stranded. */
  lemma SameTxsKeepStranded(s: State, u: State, h: int)
    requires Stranded(s, h) && u.txs == s.txs && s.blocks <= u.blocks && NoWriter(u, h)
    requires h in u.chain && u.chain[h] == s.chain[h]
    ensures Stranded(u, h) && SameRows(s, u, h)
  {
    var t :| t in s.chain[h] && t !in s.txs;
    assert t in u.chain[h] && t !in u.txs;
  }

  lemma QuietStepKeepsNoWriter(s: State, step: Step, h: int)
    requires Enabled(s, step) && IsQuiet(step) && NoWriter(s, h)
    ensures NoWriter(Apply(s, step), h)
  {
    QuietStep(s, step);
  }

  lemma OtherStepsKeepStranded(s: State, step: Step, h: int)
    requires ChainOk(s) && Enabled(s, step) && !step.SaveTxs? && Stranded(s, h)
    ensures Stranded(Apply(s, step), h) && SameRows(s, Apply(s, step), h)
  {
    if IsQuiet(step) {
      QuietStep(s, step);
      QuietStepKeepsNoWriter(s, step, h);
    }
    SameTxsKeepStranded(s, Apply(s, step), h);
  }

  /** The chain only grows at its head. */
  ghost predicate ChainGrows(s: State, u: State) {
    forall h :: h in s.chain ==> h in u.chain && u.chain[h] == s.chain[h]
  }

  lemma StepKeepsChain(s: State, step: Step)
    requires ChainOk(s) && Enabled(s, step)
    ensures ChainOk(Apply(s, step)) && ChainGrows(s, Apply(s, step))
  {
    if IsQuiet(step) { QuietStep(s, step); }
  }

  lemma StepKeepsStranded(s: State, step: Step, h: int)
    requires ChainOk(s) && Enabled(s, step) && Stranded(s, h)
    ensures ChainOk(Apply(s, step)) && Stranded(Apply(s, step), h) && SameRows(s, Apply(s, step), h)
  {
    StepKeepsChain(s, step);
    if step.SaveTxs? { SaveTxsKeepsStranded(s, step.i, h); } else { OtherStepsKeepStranded(s, step, h); }
  }

  /** Once a stored block lacks a transaction and no attempt between its saves is left, it lacks it
      for ever: every later attempt returns at the existence check, whoever dispatched it. */
  lemma {:induction false} StrandedForEver(s: State, steps: seq<Step>, h: int)
    requires ChainOk(s) && Valid(s, steps) && Stranded(s, h)
    ensures Stranded(After(s, steps), h) && SameRows(s, After(s, steps), h)
    decreases |steps|
  {
    if steps != [] {
      StepKeepsStranded(s, steps[0], h);
      StepKeepsChain(s, steps[0]);
      StrandedForEver(Apply(s, steps[0]), steps[1..], h);
    }
  }

  // ---- which blocks are complete, told from the run ----

  /** Some attempt at h performs its second save during the run. */
  ghost predicate WroteTxs(s: State, steps: seq<Step>, h: int)
    requires Valid(s, steps)
    decreases |steps|
  {
    steps != []
    && ((steps[0].SaveTxs? && s.attempts[steps[0].i].target == Ingest(h))
        || WroteTxs(Apply(s, steps[0]), steps[1..], h))
  }

  /** Transactions are stored only for blocks of the chain that have them. */
  ghost predicate TxsOnChain(s: State) {
    forall t :: t in s.txs ==> s.txs[t] in s.chain && t in s.chain[s.txs[t]]
  }

  lemma OtherStepsStoreNothing(s: State, step: Step)
    requires TxsOnChain(s) && ChainOk(s) && Enabled(s, step) && !step.SaveTxs?
    ensures Apply(s, step).txs == s.txs && TxsOnChain(Apply(s, step))
  {
    StepKeepsChain(s, step);
    if IsQuiet(step) { QuietStep(s, step); }
  }

  lemma {:induction false} RunKeepsChain(s: State, steps: seq<Step>)
    requires ChainOk(s) && Valid(s, steps)
    ensures ChainOk(After(s, steps)) && ChainGrows(s, After(s, steps))
    decreases |steps|
  {
    if steps != [] {
      StepKeepsChain(s, steps[0]);
      RunKeepsChain(Apply(s, steps[0]), steps[1..]);
    }
  }

  /** A block that comes later shares no transaction with those saved now. */
  lemma SaveTxsStores(s: State, i: nat, h: int, t: Hash, later: State)
    requires ChainOk(s) && TxsOnChain(s) && Enabled(s, SaveTxs(i))
    requires ChainOk(later) && ChainGrows(s, later) && h in later.chain && t in later.chain[h]
    ensures t in Apply(s, SaveTxs(i)).txs <==> t in s.txs || s.attempts[i].target == Ingest(h)
    ensures TxsOnChain(Apply(s, SaveTxs(i)))
  {
    var g := s.attempts[i].target.height;
    if g != h {
      assert later.chain[g] !! later.chain[h];
    }
  }

  /** Over every run, a transaction of the block at h is stored in the end iff it was at the start or an
      attempt at h performed its second save. */
  lemma {:induction false} TxStoredIff(s: State, steps: seq<Step>, h: int, t: Hash)
    requires ChainOk(s) && TxsOnChain(s) && Valid(s, steps)
    requires h in After(s, steps).chain && t in After(s, steps).chain[h]
    ensures t in After(s, steps).txs <==> t in s.txs || WroteTxs(s, steps, h)
    decreases |steps|
  {
    if steps != [] {
      var u := Apply(s, steps[0]);
      StepKeepsChain(s, steps[0]);
      if steps[0].SaveTxs? {
        RunKeepsChain(u, steps[1..]);
        SaveTxsStores(s, steps[0].i, h, t, After(u, steps[1..]));
      } else {
        OtherStepsStoreNothing(s, steps[0]);
      }
      TxStoredIff(u, steps[1..], h, t);
    }
  }

  lemma InOneBlock(s: State, g: int, h: int, t: Hash)
    requires ChainOk(s) && g in s.chain && h in s.chain && t in s.chain[g] && t in s.chain[h]
    ensures g == h
  {
    var a, b := s.chain[g], s.chain[h];
    assert g != h ==> a !! b;
  }

  /** From a consistent start: a stored block has all its transactions iff it was stored at the start,
      or has none at all, or some attempt at it performed its second save. */
  lemma CompleteIffSecondSave(s0: State, steps: seq<Step>, h: int)
    requires Init(s0) && Valid(s0, steps) && h in After(s0, steps).blocks
    ensures h in After(s0, steps).chain
    ensures BlockComplete(After(s0, steps), h)
            <==> h in s0.blocks || After(s0, steps).chain[h] == {} || WroteTxs(s0, steps, h)
  {
    var u := After(s0, steps);
    CrashConsistency(s0, steps);
    RunKeepsChain(s0, steps);
    forall t | t in u.chain[h]
      ensures t in u.txs <==> h in s0.blocks || WroteTxs(s0, steps, h)
    {
      TxStoredIff(s0, steps, h, t);
      if t in s0.txs { InOneBlock(u, s0.txs[t], h, t); }
    }
  }

  /** With nothing running, the blocks without some of their transactions, which nothing will repair,
      are exactly those that the run stored, that have transactions, and for which every attempt failed
      or stopped before its second save. */
  lemma StoredBlocksAtRest(s0: State, steps: seq<Step>, h: int)
    requires Init(s0) && Valid(s0, steps)
    requires forall i :: 0 <= i < |After(s0, steps).attempts| ==> !After(s0, steps).attempts[i].running
    requires h in After(s0, steps).blocks
    ensures h in After(s0, steps).chain
    ensures Stranded(After(s0, steps), h)
            <==> h !in s0.blocks && After(s0, steps).chain[h] != {} && !WroteTxs(s0, steps, h)
  {
    CompleteIffSecondSave(s0, steps, h);
  }

  /** A service that starts on an empty database. */
  function Fresh(): State {
    State(1, 0, map[], {}, map[], map[], 0, [], map[])
  }

  /** The first block is dispatched and picked up. */
  function PickedUp(): State {
    var key := BlockKey(1);
    Fresh().(head := 1, chain := map[1 := {"t"}],
             jobs := map[key := Job(Ingest(1), Active, MAX_ATTEMPTS, High)],
             accepted := map[key := Ingest(1)],
             attempts := [Attempt(key, Ingest(1), Begun, true)])
  }

  /** Its row is written, and the worker is gone. */
  function Abandoned(): State {
    PickedUp().(blocks := {1}, attempts := [Attempt(BlockKey(1), Ingest(1), SavedBlock, false)])
  }

  lemma PickUp()
    ensures var steps := [Grow({"t"}), LiveAdd(1), Begin(BlockKey(1))];
            Valid(Fresh(), steps) && After(Fresh(), steps) == PickedUp()
  {
    var s1 := Fresh().(head := 1, chain := map[1 := {"t"}]);
    var s2 := s1.(jobs := map[BlockKey(1) := Job(Ingest(1), Waiting, MAX_ATTEMPTS, High)],
                  accepted := map[BlockKey(1) := Ingest(1)]);
    assert Apply(Fresh(), Grow({"t"})) == s1;
    assert Apply(s1, LiveAdd(1)) == s2;
    assert Apply(s2, Begin(BlockKey(1))) == PickedUp();
    ValidCons(s2, Begin(BlockKey(1)), []);
    ValidCons(s1, LiveAdd(1), [Begin(BlockKey(1))]);
    ValidCons(Fresh(), Grow({"t"}), [LiveAdd(1), Begin(BlockKey(1))]);
  }

  lemma Abandon()
    ensures var steps := [Look(0), SaveBlock(0), Crash(0)];
            Valid(PickedUp(), steps) && After(PickedUp(), steps) == Abandoned()
  {
    var s1 := PickedUp().(attempts := [Attempt(BlockKey(1), Ingest(1), SawNoBlock, true)]);
    var s2 := PickedUp().(blocks := {1}, attempts := [Attempt(BlockKey(1), Ingest(1), SavedBlock, true)]);
    assert Apply(PickedUp(), Look(0)) == s1;
    assert Apply(s1, SaveBlock(0)) == s2;
    assert Apply(s2, Crash(0)) == Abandoned();
    ValidCons(s2, Crash(0), []);
    ValidCons(s1, SaveBlock(0), [Crash(0)]);
    ValidCons(PickedUp(), Look(0), [SaveBlock(0), Crash(0)]);
  }

  /** That a stored block has all its transactions is false: one crash between the saves is enough. */
  lemma BlockWithoutItsTransaction()
    ensures Init(Fresh())
    ensures var steps := [Grow({"t"}), LiveAdd(1), Begin(BlockKey(1))] + [Look(0), SaveBlock(0), Crash(0)];
            Valid(Fresh(), steps) && Stranded(After(Fresh(), steps), 1)
  {
    PickUp();
    Abandon();
    ValidAppend(Fresh(), [Grow({"t"}), LiveAdd(1), Begin(BlockKey(1))], [Look(0), SaveBlock(0), Crash(0)]);
    var s := Abandoned();
    assert "t" in s.chain[1] && "t" !in s.txs;
  }
}
