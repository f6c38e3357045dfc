/** One attempt at an ingest job without interference, and its place in the protocol. */
module IngestAttempt {
  import opened JobKeys
  import opened Queues
  import opened Ingestion
  import opened Options
  import B = BlockConsumer
  import BackwardCheck

  /** The job is waiting to be picked up. */
  predicate Dispatched(s: State, key: JobKey, h: int) {
    key in s.jobs && s.jobs[key].target == Ingest(h) && s.jobs[key].status.Waiting?
  }

  /** The steps of an attempt nobody interrupts, given what the outside world answers. */
  function AttemptSteps(s: State, key: JobKey, h: int, replies: B.Replies): seq<Step> {
    var i := |s.attempts|;
    [Begin(key), Look(i)]
    + if h in s.blocks then [Complete(i)]
      else if !B.BlockArrives(replies) then [Fail(i)]
      else [SaveBlock(i)] + if B.TxsArrive(replies) then [SaveTxs(i)] + [Complete(i)] else [Fail(i)]
  }

  /** The state in which a fresh attempt at the job has got as far as the given progress. */
  function Under(s: State, key: JobKey, h: int, progress: Progress): State
    requires key in s.jobs
  {
    s.(jobs := s.jobs[key := s.jobs[key].(status := Active)],
       attempts := s.attempts + [Attempt(key, Ingest(h), progress, true)])
  }

  function WithBlock(s: State, key: JobKey, h: int): State
    requires key in s.jobs
  {
    Under(s, key, h, SavedBlock).(blocks := s.blocks + {h})
  }

  function WithTxs(s: State, key: JobKey, h: int): State
    requires key in s.jobs && h in s.chain
  {
    Under(s, key, h, Finished).(blocks := s.blocks + {h}, txs := s.txs + map t | t in s.chain[h] :: h)
  }

  lemma Looked(s: State, key: JobKey, h: int)
    requires Dispatched(s, key, h)
    ensures var steps := [Begin(key), Look(|s.attempts|)];
            Valid(s, steps) && After(s, steps) == Under(s, key, h, if h in s.blocks then Finished else SawNoBlock)
  {
    var i := |s.attempts|;
    var s1 := Under(s, key, h, Begun);
    var s2 := Under(s, key, h, if h in s.blocks then Finished else SawNoBlock);
    assert Apply(s, Begin(key)) == s1;
    assert Apply(s1, Look(i)).attempts == s2.attempts;
    ValidCons(s1, Look(i), []);
    ValidCons(s, Begin(key), [Look(i)]);
  }

  lemma BlockSaved(s: State, key: JobKey, h: int)
    requires Dispatched(s, key, h) && h in s.chain
    ensures var u := Under(s, key, h, SawNoBlock);
            var steps := [SaveBlock(|s.attempts|)];
            Valid(u, steps) && After(u, steps) == WithBlock(s, key, h)
  {
    var i := |s.attempts|;
    var u := Under(s, key, h, SawNoBlock);
    assert Apply(u, SaveBlock(i)).attempts == WithBlock(s, key, h).attempts;
    assert Apply(u, SaveBlock(i)) == WithBlock(s, key, h);
    ValidCons(u, SaveBlock(i), []);
  }

  lemma TxsSaved(s: State, key: JobKey, h: int)
    requires Dispatched(s, key, h) && h in s.chain
    ensures var u := WithBlock(s, key, h);
            var steps := [SaveTxs(|s.attempts|)];
            Valid(u, steps) && After(u, steps) == WithTxs(s, key, h)
  {
    var i := |s.attempts|;
    var u := WithBlock(s, key, h);
    assert Apply(u, SaveTxs(i)).attempts == WithTxs(s, key, h).attempts;
    assert Apply(u, SaveTxs(i)) == WithTxs(s, key, h);
    ValidCons(u, SaveTxs(i), []);
  }

  lemma FailAlone(s: State, key: JobKey)
    requires |s.attempts| > 0 && Running(s, |s.attempts| - 1) && s.attempts[|s.attempts| - 1].key == key
    requires !s.attempts[|s.attempts| - 1].progress.Finished? && key in s.jobs && s.jobs[key].status.Active?
    ensures var steps := [Fail(|s.attempts| - 1)];
            && Valid(s, steps)
            && After(s, steps).chain == s.chain && After(s, steps).blocks == s.blocks && After(s, steps).txs == s.txs
            && After(s, steps).jobs == s.jobs[key := AfterFailure(s.jobs[key])]
  {
    ValidCons(s, Fail(|s.attempts| - 1), []);
  }

  /** The job when the attempt is over: completed, or failed once more. */
  function JobAfter(s: State, key: JobKey, h: int, replies: B.Replies): Job
    requires key in s.jobs
  {
    if h in s.blocks || (B.BlockArrives(replies) && B.TxsArrive(replies)) then s.jobs[key].(status := Completed)
    else AfterFailure(s.jobs[key].(status := Active))
  }

  /** What the attempt leaves. */
  ghost predicate Leaves(s: State, key: JobKey, h: int, replies: B.Replies, u: State)
    requires key in s.jobs && (B.BlockArrives(replies) ==> h in s.chain)
  {
    && u.chain == s.chain
    && u.blocks == (if B.BlockArrives(replies) then s.blocks + {h} else s.blocks)
    && u.txs == (if h !in s.blocks && B.BlockArrives(replies) && B.TxsArrive(replies)
                 then s.txs + map t | t in s.chain[h] :: h else s.txs)
    && u.jobs == s.jobs[key := JobAfter(s, key, h, replies)]
  }

  lemma KnownBlockAlone(s: State, key: JobKey, h: int, replies: B.Replies)
    requires Dispatched(s, key, h) && h in s.blocks && (B.BlockArrives(replies) ==> h in s.chain)
    ensures Valid(s, AttemptSteps(s, key, h, replies))
    ensures Leaves(s, key, h, replies, After(s, AttemptSteps(s, key, h, replies)))
  {
    var i := |s.attempts|;
    var u := Under(s, key, h, Finished);
    Looked(s, key, h);
    BackwardCheck.CompleteAlone(u, key);
    ValidAppend(s, [Begin(key), Look(i)], [Complete(i)]);
    assert s.blocks + {h} == s.blocks;
  }

  lemma NoBlockAlone(s: State, key: JobKey, h: int, replies: B.Replies)
    requires Dispatched(s, key, h) && h !in s.blocks && !B.BlockArrives(replies)
    ensures Valid(s, AttemptSteps(s, key, h, replies))
    ensures Leaves(s, key, h, replies, After(s, AttemptSteps(s, key, h, replies)))
  {
    var i := |s.attempts|;
    var u := Under(s, key, h, SawNoBlock);
    Looked(s, key, h);
    FailAlone(u, key);
    ValidAppend(s, [Begin(key), Look(i)], [Fail(i)]);
  }

  /** The steps from the first save on. */
  lemma SavesAlone(s: State, key: JobKey, h: int, replies: B.Replies, last: seq<Step>)
    requires Dispatched(s, key, h) && h in s.chain && h !in s.blocks && B.BlockArrives(replies)
    requires last == if B.TxsArrive(replies) then [SaveTxs(|s.attempts|)] + [Complete(|s.attempts|)]
                     else [Fail(|s.attempts|)]
    ensures Valid(WithBlock(s, key, h), last) && Leaves(s, key, h, replies, After(WithBlock(s, key, h), last))
  {
    var i := |s.attempts|;
    var u := WithBlock(s, key, h);
    if B.TxsArrive(replies) {
      TxsSaved(s, key, h);
      BackwardCheck.CompleteAlone(WithTxs(s, key, h), key);
      ValidAppend(u, [SaveTxs(i)], [Complete(i)]);
    } else {
      FailAlone(u, key);
    }
  }

  lemma NewBlockAlone(s: State, key: JobKey, h: int, replies: B.Replies)
    requires Dispatched(s, key, h) && h in s.chain && h !in s.blocks && B.BlockArrives(replies)
    ensures Valid(s, AttemptSteps(s, key, h, replies))
    ensures Leaves(s, key, h, replies, After(s, AttemptSteps(s, key, h, replies)))
  {
    var i := |s.attempts|;
    var last := if B.TxsArrive(replies) then [SaveTxs(i)] + [Complete(i)] else [Fail(i)];
    var u := Under(s, key, h, SawNoBlock);
    Looked(s, key, h);
    BlockSaved(s, key, h);
    SavesAlone(s, key, h, replies, last);
    ValidAppend(u, [SaveBlock(i)], last);
    ValidAppend(s, [Begin(key), Look(i)], [SaveBlock(i)] + last);
  }

  /** Left alone, an attempt at an ingest job leaves exactly this, whatever the replies: nothing new when the
      block was there, the block alone when it stops after the first save, the block with all transactions
      when both saves get through; the job is completed, or retried or given up. */
  lemma AttemptAlone(s: State, key: JobKey, h: int, replies: B.Replies)
    requires Dispatched(s, key, h) && (B.BlockArrives(replies) ==> h in s.chain)
    ensures Valid(s, AttemptSteps(s, key, h, replies))
    ensures Leaves(s, key, h, replies, After(s, AttemptSteps(s, key, h, replies)))
  {
    if h in s.blocks {
      KnownBlockAlone(s, key, h, replies);
    } else if B.BlockArrives(replies) {
      NewBlockAlone(s, key, h, replies);
    } else {
      NoBlockAlone(s, key, h, replies);
    }
  }

  /** So, when everything arrives, an ingest job stores the block with all its transactions, or changes no
      table when the block was there already; either way the job is completed. */
  lemma IngestAlone(s: State, key: JobKey, h: int, replies: B.Replies)
    requires Dispatched(s, key, h) && h in s.chain && B.BlockArrives(replies) && B.TxsArrive(replies)
    ensures Valid(s, AttemptSteps(s, key, h, replies))
    ensures var u := After(s, AttemptSteps(s, key, h, replies));
            && u.chain == s.chain && u.blocks == s.blocks + {h}
            && u.jobs == s.jobs[key := s.jobs[key].(status := Completed)]
            && (h in s.blocks ==> u.txs == s.txs)
            && (h !in s.blocks ==> BlockComplete(u, h))
  {
    AttemptAlone(s, key, h, replies);
  }

  // ---- the sequential code ----

  /** The tables of the consumer hold the rows the protocol speaks of. */
  ghost predicate Mirrors(blocks: map<int, B.BlockRow>, txs: map<Hash, B.TxRow>, s: State) {
    && blocks.Keys == s.blocks
    && txs.Keys == s.txs.Keys
    && forall t :: t in txs ==> txs[t].height == s.txs[t]
  }

  /** What the chain client says is what the chain has at the height. */
  ghost predicate Honest(s: State, h: int, replies: B.Replies) {
    && (replies.block.Some? ==> h in s.chain && replies.block.value.height == h)
    && (replies.txs.Some? && h in s.chain ==>
          && (forall i :: 0 <= i < |replies.txs.value| ==> replies.txs.value[i].height == h)
          && (forall t :: B.HasKey(replies.txs.value, t) <==> t in s.chain[h]))
  }

  lemma {:induction false} SavedHeight(table: map<Hash, B.TxRow>, rows: seq<B.TxRow>, x: Hash, h: int)
    requires B.HasKey(rows, x) && forall i :: 0 <= i < |rows| ==> rows[i].height == h
    ensures x in B.SaveAll(table, rows) && B.SaveAll(table, rows)[x].height == h
  {
    B.HasKeyGrows(rows, x);
    var n := |rows| - 1;
    if rows[n].hash != x {
      SavedHeight(table, rows[..n], x, h);
    }
  }

  lemma SavedRowsMirror(s: State, h: int, txs: map<Hash, B.TxRow>, replies: B.Replies)
    requires h in s.chain && replies.txs.Some? && replies.block.Some? && Honest(s, h, replies)
    requires txs.Keys == s.txs.Keys && forall t :: t in txs ==> txs[t].height == s.txs[t]
    ensures var u := s.txs + map t | t in s.chain[h] :: h;
            var saved := B.SaveAll(txs, replies.txs.value);
            saved.Keys == u.Keys && forall t :: t in saved ==> saved[t].height == u[t]
  {
    var rows := replies.txs.value;
    var u := s.txs + map t | t in s.chain[h] :: h;
    forall t
      ensures t in B.SaveAll(txs, rows) <==> t in u
      ensures t in u ==> B.SaveAll(txs, rows)[t].height == u[t]
    {
      B.OneRow(txs, rows, t);
      if B.HasKey(rows, t) { SavedHeight(txs, rows, t, h); }
    }
  }

  /** The sequential code and the protocol agree: from tables that mirror the state, an attempt leaves
      tables that mirror what the steps of the protocol leave, for all replies that tell the truth. */
  lemma IngestMirrorsProtocol(s: State, key: JobKey, h: int, blocks: map<int, B.BlockRow>, txs: map<Hash, B.TxRow>,
                              replies: B.Replies)
    requires Dispatched(s, key, h) && Mirrors(blocks, txs, s) && Honest(s, h, replies)
    ensures Valid(s, AttemptSteps(s, key, h, replies))
    ensures Mirrors(B.FirstSave(blocks, h, replies), B.SecondSave(blocks, txs, h, replies),
                    After(s, AttemptSteps(s, key, h, replies)))
  {
    AttemptAlone(s, key, h, replies);
    if h !in s.blocks && B.BlockArrives(replies) && B.TxsArrive(replies) {
      SavedRowsMirror(s, h, txs, replies);
    }
  }
}
