/** The block scheduler and the block consumer as they change the queue and the tables in place.

    Each method runs without interference; Ingestion says what happens when they interleave. Replies
    of the chain client and the outcome of a database write are parameters. */
module BlockConsumer {
  import opened JobKeys
  import opened Queues
  import opened Bisection
  import opened LiveWindow
  import opened BackwardCheck
  import opened Options

  type Hash = string

  datatype BlockRow = BlockRow(height: int, hash: Hash, txHashes: seq<Hash>)

  datatype TxRow = TxRow(hash: Hash, height: int)

  /** What the outside world answers during one ingest attempt. A None is an error. */
  datatype Replies = Replies(
    chainReady: bool,
    block: Option<BlockRow>,
    blockWritten: bool,
    txs: Option<seq<TxRow>>,
    txsWritten: bool
  )

  datatype Outcome = Skipped | Ingested(block: BlockRow) | Error

  /** One job of a bulk add. */
  datatype JobSpec = JobSpec(key: JobKey, target: Target, attempts: nat, priority: Priority)

  function AddAll(jobs: Jobs, specs: seq<JobSpec>): Jobs {
    if specs == [] then jobs
    else
      var last := specs[|specs| - 1];
      Add(AddAll(jobs, specs[..|specs| - 1]), last.key, last.target, last.attempts, last.priority)
  }

  /** The rows of a bulk save, by primary key; a later row wins over an earlier one. */
  function SaveAll(table: map<Hash, TxRow>, rows: seq<TxRow>): map<Hash, TxRow> {
    if rows == [] then table
    else SaveAll(table, rows[..|rows| - 1])[rows[|rows| - 1].hash := rows[|rows| - 1]]
  }

  /** The i-th row is the last one with its primary key. */
  ghost predicate LastOfKey(rows: seq<TxRow>, i: int) {
    0 <= i < |rows| && forall j :: i < j < |rows| ==> rows[j].hash != rows[i].hash
  }

  ghost predicate HasKey(rows: seq<TxRow>, x: Hash) {
    exists i :: 0 <= i < |rows| && rows[i].hash == x
  }

  lemma HasKeyGrows(rows: seq<TxRow>, x: Hash)
    requires rows != []
    ensures HasKey(rows, x) <==> HasKey(rows[..|rows| - 1], x) || rows[|rows| - 1].hash == x
  {
    var n := |rows| - 1;
    assert forall i :: 0 <= i < n ==> rows[..n][i] == rows[i];
    if HasKey(rows[..n], x) {
      var i :| 0 <= i < n && rows[..n][i].hash == x;
      assert rows[i].hash == x;
    }
  }

  lemma LastBeforeLast(rows: seq<TxRow>, i: int)
    requires LastOfKey(rows, i) && i < |rows| - 1
    ensures LastOfKey(rows[..|rows| - 1], i) && rows[..|rows| - 1][i] == rows[i]
    ensures rows[|rows| - 1].hash != rows[i].hash
  {
  }

  lemma {:induction false} OneRow(table: map<Hash, TxRow>, rows: seq<TxRow>, x: Hash)
    ensures x in SaveAll(table, rows) <==> x in table || HasKey(rows, x)
    ensures x in table && !HasKey(rows, x) ==> SaveAll(table, rows)[x] == table[x]
  {
    if rows != [] {
      HasKeyGrows(rows, x);
      OneRow(table, rows[..|rows| - 1], x);
    }
  }

  lemma {:induction false} LastGiven(table: map<Hash, TxRow>, rows: seq<TxRow>, i: int)
    requires LastOfKey(rows, i)
    ensures rows[i].hash in SaveAll(table, rows) && SaveAll(table, rows)[rows[i].hash] == rows[i]
  {
    if i < |rows| - 1 {
      LastBeforeLast(rows, i);
      LastGiven(table, rows[..|rows| - 1], i);
    }
  }

  /** After a bulk save each given key holds the last row given for it, and every other row is as before. */
  lemma SaveAllEffect(table: map<Hash, TxRow>, rows: seq<TxRow>)
    ensures forall x :: x in SaveAll(table, rows) <==> x in table || HasKey(rows, x)
    ensures forall x :: x in table && !HasKey(rows, x) ==> SaveAll(table, rows)[x] == table[x]
    ensures forall i :: LastOfKey(rows, i)
                        ==> rows[i].hash in SaveAll(table, rows) && SaveAll(table, rows)[rows[i].hash] == rows[i]
  {
    forall x
      ensures x in SaveAll(table, rows) <==> x in table || HasKey(rows, x)
      ensures x in table && !HasKey(rows, x) ==> SaveAll(table, rows)[x] == table[x]
    {
      OneRow(table, rows, x);
    }
    forall i | LastOfKey(rows, i)
      ensures rows[i].hash in SaveAll(table, rows) && SaveAll(table, rows)[rows[i].hash] == rows[i]
    {
      LastGiven(table, rows, i);
    }
  }

  /** The block is fetched and its row is written. */
  predicate BlockArrives(replies: Replies) {
    replies.chainReady && replies.block.Some? && replies.blockWritten
  }

  /** The transactions are fetched and their rows are written. */
  predicate TxsArrive(replies: Replies) {
    replies.txs.Some? && replies.txsWritten
  }

  /** The block table after an attempt. */
  function FirstSave(blocks: map<int, BlockRow>, height: int, replies: Replies): map<int, BlockRow> {
    if height !in blocks && BlockArrives(replies) then blocks[replies.block.value.height := replies.block.value]
    else blocks
  }

  /** The transaction table after an attempt. */
  function SecondSave(blocks: map<int, BlockRow>, txs: map<Hash, TxRow>, height: int, replies: Replies)
      : map<Hash, TxRow> {
    if height !in blocks && BlockArrives(replies) && TxsArrive(replies) then SaveAll(txs, replies.txs.value) else txs
  }

  lemma NoAutoKeyFromCheck(jobs: Jobs, blocks: set<int>, r: Range)
    ensures forall k :: k in VerifyJobs(jobs, blocks, r) && k.AutoKey? ==> k in jobs
  {
    VerifyJobsMeaning(jobs, blocks, r);
  }

  /** Collects the jobs of a bulk add, one for each height. */
  method CollectIngests(ghost jobs: Jobs, from: int, to: int) returns (specs: seq<JobSpec>)
    ensures AddAll(jobs, specs) == AddIngests(jobs, from, to, Low)
  {
    specs := [];
    var i := from;
    while i <= to
      invariant i <= to + 1 || i == from
      invariant AddAll(jobs, specs) == AddIngests(jobs, from, i - 1, Low)
    {
      var spec := JobSpec(BlockKey(i), Ingest(i), MAX_ATTEMPTS, Low);
      assert (specs + [spec])[..|specs|] == specs;
      specs := specs + [spec];
      i := i + 1;
    }
  }

  class BlockPipeline {
    const startingHeight: int
    var jobs: Jobs
    var nextAuto: nat
    var blocks: map<int, BlockRow>
    var txs: map<Hash, TxRow>

    constructor (startingHeight: int)
      ensures this.startingHeight == startingHeight
      ensures Valid() && jobs == map[] && nextAuto == 0 && blocks == map[] && txs == map[]
    {
      this.startingHeight := startingHeight;
      jobs, nextAuto, blocks, txs := map[], 0, map[], map[];
    }

    /** The identifiers the queue handed out are those below its counter. */
    ghost predicate Valid()
      reads this`jobs, this`nextAuto
    {
      forall k :: k in jobs && k.AutoKey? ==> k.n < nextAuto
    }

    method AddJob(key: JobKey, target: Target, attempts: nat, priority: Priority)
      modifies this`jobs
      ensures jobs == Add(old(jobs), key, target, attempts, priority)
    {
      if key !in jobs {
        jobs := jobs[key := Job(target, Waiting, attempts, priority)];
      }
    }

    /** A job added without an identifier gets one that no job has, so it is always a job of its own. */
    method AddWithoutId(target: Target, priority: Priority)
      requires Valid()
      modifies this`jobs, this`nextAuto
      ensures Valid() && nextAuto == old(nextAuto) + 1
      ensures AutoKey(old(nextAuto)) !in old(jobs)
      ensures jobs == old(jobs)[AutoKey(old(nextAuto)) := Job(target, Waiting, 1, priority)]
    {
      var key := AutoKey(nextAuto);
      nextAuto := nextAuto + 1;
      AddJob(key, target, SINGLE_ATTEMPT, priority);
    }

    method AddBulk(specs: seq<JobSpec>)
      modifies this`jobs
      ensures jobs == AddAll(old(jobs), specs)
    {
      assert specs[..0] == [];
      for i := 0 to |specs|
        invariant jobs == AddAll(old(jobs), specs[..i])
      {
        assert specs[..i + 1][..i] == specs[..i];
        AddJob(specs[i].key, specs[i].target, specs[i].attempts, specs[i].priority);
      }
      assert specs[..|specs|] == specs;
    }

    // ---- scheduler ----

    /** Adds one more range job, whatever the queue holds already. */
    method BackwardIngest(head: int)
      requires Valid()
      modifies this`jobs, this`nextAuto
      ensures Valid() && nextAuto == old(nextAuto) + 1
      ensures AutoKey(old(nextAuto)) !in old(jobs)
      ensures jobs == old(jobs)[AutoKey(old(nextAuto)) :=
                                  Job(Verify(startingHeight, head), Waiting, 1, Low)]
    {
      AddWithoutId(Verify(startingHeight, head), Low);
    }

    /** Adds the jobs of the last 20 heights, newest first. */
    method LiveIngest(head: int)
      modifies this`jobs
      ensures jobs == Tick(old(jobs), head)
      ensures old(Valid()) ==> Valid()
    {
      for i := 0 to 20
        invariant forall k :: k in jobs <==> k in old(jobs) || (k.BlockKey? && head - i < k.height <= head)
        invariant forall k :: k in old(jobs) ==> jobs[k] == old(jobs)[k]
        invariant forall k :: k in jobs && k !in old(jobs)
                              ==> jobs[k] == Job(Ingest(k.height), Waiting, MAX_ATTEMPTS, High)
      {
        AddJob(BlockKey(head - i), Ingest(head - i), MAX_ATTEMPTS, High);
      }
      AddIngestsEffect(old(jobs), head - 19, head, High);
    }

    /** Asks for one block on behalf of a reader; heights before the starting height are refused. */
    method FailSafeIngest(height: int) returns (added: bool)
      requires Valid()
      modifies this`jobs, this`nextAuto
      ensures Valid() && (added <==> height >= startingHeight)
      ensures AutoKey(old(nextAuto)) !in old(jobs)
      ensures added ==> nextAuto == old(nextAuto) + 1
      ensures added ==> jobs == old(jobs)[AutoKey(old(nextAuto)) := Job(Ingest(height), Waiting, 1, High)]
      ensures !added ==> jobs == old(jobs) && nextAuto == old(nextAuto)
    {
      if height < startingHeight {
        return false;
      }
      AddWithoutId(Ingest(height), High);
      return true;
    }

    // ---- consumer ----

    method VerifyBlocksBackward(from: int, to: int)
      modifies this`jobs
      ensures jobs == VerifyJobs(old(jobs), blocks.Keys, Range(from, to))
      ensures old(Valid()) ==> Valid()
    {
      var count := CountInRange(blocks.Keys, from, to - 1);
      var missing := to - from - count;
      if missing > 0 && to - from <= 1000 {
        var specs := CollectIngests(jobs, from, to);
        AddBulk(specs);
      } else if missing > 0 {
        var mid := from + (to - from) / 2;
        AddJob(RangeKey(from, mid), Verify(from, mid), MAX_ATTEMPTS, Unset);
        AddJob(RangeKey(mid + 1, to), Verify(mid + 1, to), MAX_ATTEMPTS, Unset);
      }
      NoAutoKeyFromCheck(old(jobs), blocks.Keys, Range(from, to));
    }

    /** One attempt at an ingest job. The block row is written before its transactions are even
        fetched, and nothing is undone when a later part fails. */
    method IngestBlock(height: int, replies: Replies) returns (outcome: Outcome)
      modifies this`blocks, this`txs
      ensures outcome.Skipped? <==> height in old(blocks)
      ensures outcome.Ingested? <==> height !in old(blocks) && BlockArrives(replies) && TxsArrive(replies)
      ensures outcome.Ingested? ==> outcome.block == replies.block.value
      ensures blocks == FirstSave(old(blocks), height, replies)
      ensures height !in old(blocks) && BlockArrives(replies) ==>
                blocks == old(blocks)[replies.block.value.height := replies.block.value]
      ensures txs == SecondSave(old(blocks), old(txs), height, replies)
    {
      if height in blocks {
        return Skipped;
      }
      if !replies.chainReady || replies.block.None? {
        return Error;
      }
      var block := replies.block.value;
      if !replies.blockWritten {
        return Error;
      }
      blocks := blocks[block.height := block];
      if replies.txs.None? || !replies.txsWritten {
        return Error;
      }
      var rows := replies.txs.value;
      assert rows[..0] == [];
      txs := SaveAll(txs, rows);
      return Ingested(block);
    }
  }
}
