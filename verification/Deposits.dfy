/** The records of Millions deposits: created, edited and marked as withdrawn by queue jobs that may
    come in any order and be retried. Attempts run one after the other here; DepositOverlaps says what
    changes when they do not. */
module Deposits {
  import opened Options

  datatype Amount = Amount(amount: int, denom: string)

  datatype Deposit = Deposit(
    id: int,
    poolId: int,
    blockHeight: int,
    amount: Amount,
    winnerAddress: string,
    depositorAddress: string,
    isSponsor: bool,
    withdrawalId: int
  )

  /** What the chain says about a deposit at the time of the job. */
  datatype LiveDeposit = LiveDeposit(amount: Amount, winnerAddress: string, depositorAddress: string, isSponsor: bool)

  /** A missing or unreadable number reaches the consumer as 0. */
  datatype DepositJob = DepositJob(depositId: int, poolId: int, height: int, withdrawalId: int)

  datatype Failure = InvalidJobData | NoDepositToWithdraw | NoLiveDepositToUpdate | NoLiveDepositToCreate

  datatype Outcome = Done | Failed(failure: Failure)

  type Table = map<int, Deposit>

  function Created(job: DepositJob, live: LiveDeposit): Deposit {
    Deposit(job.depositId, job.poolId, job.height, live.amount, live.winnerAddress, live.depositorAddress,
            live.isSponsor, 0)
  }

  function Edited(deposit: Deposit, live: LiveDeposit): Deposit {
    deposit.(isSponsor := live.isSponsor, winnerAddress := live.winnerAddress,
             depositorAddress := live.depositorAddress)
  }

  predicate ValidJob(job: DepositJob) {
    job.depositId != 0 && job.poolId != 0 && job.height != 0
  }

  /** The row an attempt saves, given the record it found; None when it ends without saving. */
  function RowToSave(found: Option<Deposit>, job: DepositJob, live: Option<LiveDeposit>): Option<Deposit> {
    if !ValidJob(job) then None
    else if job.withdrawalId != 0 then
      if found.None? then None else Some(found.value.(withdrawalId := job.withdrawalId))
    else if found.Some? && found.value.blockHeight > job.height then None
    else if live.None? then None
    else if found.Some? then Some(Edited(found.value, live.value))
    else Some(Created(job, live.value))
  }

  /** How an attempt ends, given the record it found. */
  function Answer(found: Option<Deposit>, job: DepositJob, live: Option<LiveDeposit>): Outcome {
    if !ValidJob(job) then Failed(InvalidJobData)
    else if job.withdrawalId != 0 then if found.None? then Failed(NoDepositToWithdraw) else Done
    else if found.Some? && found.value.blockHeight > job.height then Done
    else if live.Some? then Done
    else Failed(if found.Some? then NoLiveDepositToUpdate else NoLiveDepositToCreate)
  }

  /** One attempt during which no other attempt saves: what becomes of the record, and how it ends. */
  function Attempt(record: Option<Deposit>, job: DepositJob, live: Option<LiveDeposit>): (Option<Deposit>, Outcome) {
    var row := RowToSave(record, job, live);
    (if row.Some? then row else record, Answer(record, job, live))
  }

  function Lookup(table: Table, id: int): Option<Deposit> {
    if id in table then Some(table[id]) else None
  }

  class DepositConsumer {
    var deposits: Table

    constructor ()
      ensures deposits == map[]
    {
      deposits := map[];
    }

    /** Reads the record and works out what to save. */
    method Prepare(job: DepositJob, live: Option<LiveDeposit>) returns (row: Option<Deposit>, outcome: Outcome)
      ensures row == RowToSave(Lookup(deposits, job.depositId), job, live)
      ensures row.Some? <==> var found, e := Lookup(deposits, job.depositId), Event(job, live);
                             Refreshes(found, e) || Withdraws(found, e)
      ensures row.Some? && job.withdrawalId == 0 ==> live.Some? && ShowsLive(row.value, live.value)
      ensures outcome == Answer(Lookup(deposits, job.depositId), job, live)
    {
      if job.depositId == 0 || job.poolId == 0 || job.height == 0 {
        return None, Failed(InvalidJobData);
      }
      if job.withdrawalId != 0 {
        if job.depositId !in deposits {
          return None, Failed(NoDepositToWithdraw);
        }
        var deposit := deposits[job.depositId];
        deposit := deposit.(withdrawalId := job.withdrawalId);
        return Some(deposit), Done;
      }
      if job.depositId in deposits {
        var deposit := deposits[job.depositId];
        if deposit.blockHeight > job.height {
          return None, Done;
        }
        if live.None? {
          return None, Failed(NoLiveDepositToUpdate);
        }
        if deposit.isSponsor != live.value.isSponsor {
          deposit := deposit.(isSponsor := live.value.isSponsor);
        }
        if deposit.winnerAddress != live.value.winnerAddress {
          deposit := deposit.(winnerAddress := live.value.winnerAddress);
        }
        if deposit.depositorAddress != live.value.depositorAddress {
          deposit := deposit.(depositorAddress := live.value.depositorAddress);
        }
        return Some(deposit), Done;
      }
      if live.None? {
        return None, Failed(NoLiveDepositToCreate);
      }
      var deposit := Deposit(job.depositId, job.poolId, job.height, live.value.amount, live.value.winnerAddress,
                             live.value.depositorAddress, live.value.isSponsor, 0);
      return Some(deposit), Done;
    }

    /** One attempt nobody interferes with. In a running service other attempts may save between the
        reading and the saving; DepositOverlaps is about that. */
    method IngestMillionsDeposit(job: DepositJob, live: Option<LiveDeposit>) returns (outcome: Outcome)
      modifies this
      ensures outcome == Attempt(Lookup(old(deposits), job.depositId), job, live).1
      ensures Lookup(deposits, job.depositId) == Attempt(Lookup(old(deposits), job.depositId), job, live).0
      ensures forall id :: id != job.depositId ==> Lookup(deposits, id) == Lookup(old(deposits), id)
    {
      var row;
      row, outcome := Prepare(job, live);
      if row.Some? {
        deposits := deposits[job.depositId := row.value];
      }
    }
  }

  // ---- runs ----

  /** One attempt at one job, with whatever the chain answered. */
  datatype Event = Event(job: DepositJob, live: Option<LiveDeposit>)

  function Apply(table: Table, e: Event): Table {
    var (record, _) := Attempt(Lookup(table, e.job.depositId), e.job, e.live);
    if record.Some? then table[e.job.depositId := record.value] else table
  }

  function Run(table: Table, events: seq<Event>): Table {
    if events == [] then table else Apply(Run(table, events[..|events| - 1]), events[|events| - 1])
  }

  function OutcomeOf(table: Table, e: Event): Outcome {
    Attempt(Lookup(table, e.job.depositId), e.job, e.live).1
  }

  /** What a run keeps of a record once it exists. */
  predicate Keeps(a: Deposit, b: Deposit) {
    && b.id == a.id && b.poolId == a.poolId && b.blockHeight == a.blockHeight && b.amount == a.amount
    && (a.withdrawalId != 0 ==> b.withdrawalId != 0)
  }

  /** Over every run of attempts that do not overlap, with any answers of the chain: records are never
      removed, their amount, pool and block height never change, and a withdrawal is never forgotten. */
  lemma {:induction false} RunKeepsRecords(table: Table, events: seq<Event>)
    ensures forall id :: id in table ==> id in Run(table, events) && Keeps(table[id], Run(table, events)[id])
  {
    if events != [] {
      RunKeepsRecords(table, events[..|events| - 1]);
    }
  }

  /** A failing attempt changes nothing; neither does a job without a withdrawal that is below the
      stored block height, which counts as done. */
  lemma NoEffect(table: Table, e: Event)
    ensures OutcomeOf(table, e).Failed? ==> Apply(table, e) == table
    ensures ValidJob(e.job) && e.job.withdrawalId == 0 && e.job.depositId in table
            && table[e.job.depositId].blockHeight > e.job.height
            ==> Apply(table, e) == table && OutcomeOf(table, e) == Done
  {
    if e.job.depositId in table {
      assert table[e.job.depositId := table[e.job.depositId]] == table;
    }
  }

  /** The block height is not the height of the latest edit. */
  lemma BlockHeightIsNotLatest(job: DepositJob, later: DepositJob, live: LiveDeposit)
    requires ValidJob(job) && ValidJob(later) && job.withdrawalId == 0 && later.withdrawalId == 0
    requires job.depositId == later.depositId && job.height < later.height
    ensures var events := [Event(job, Some(live)), Event(later, Some(live))];
            job.depositId in Run(map[], events) && Run(map[], events)[job.depositId].blockHeight == job.height
  {
    var events := [Event(job, Some(live)), Event(later, Some(live))];
    assert events[..1] == [Event(job, Some(live))];
    assert events[..1][..0] == [];
    assert Run(map[], events[..1]) == Apply(map[], events[0]);
  }

  // ---- what one attempt does ----

  /** The record shows what the chain says. */
  predicate ShowsLive(d: Deposit, live: LiveDeposit) {
    && d.isSponsor == live.isSponsor
    && d.winnerAddress == live.winnerAddress
    && d.depositorAddress == live.depositorAddress
  }

  /** Everything of the record but what an edit may change. */
  predicate SameButEdit(a: Deposit, b: Deposit) {
    && b.id == a.id && b.poolId == a.poolId && b.blockHeight == a.blockHeight && b.amount == a.amount
    && b.withdrawalId == a.withdrawalId
  }

  /** Everything of the record but its withdrawal. */
  predicate SameButWithdrawal(a: Deposit, b: Deposit) {
    && b.id == a.id && b.poolId == a.poolId && b.blockHeight == a.blockHeight && b.amount == a.amount
    && b.isSponsor == a.isSponsor && b.winnerAddress == a.winnerAddress && b.depositorAddress == a.depositorAddress
  }

  /** The attempt creates or edits the record from the answer of the chain. */
  predicate Refreshes(found: Option<Deposit>, e: Event) {
    && e.job.depositId != 0 && e.job.poolId != 0 && e.job.height != 0 && e.job.withdrawalId == 0 && e.live.Some?
    && (found.Some? ==> e.job.height >= found.value.blockHeight)
  }

  predicate Withdraws(found: Option<Deposit>, e: Event) {
    && e.job.depositId != 0 && e.job.poolId != 0 && e.job.height != 0 && e.job.withdrawalId != 0 && found.Some?
  }

  /** What one attempt does, field by field: an edit takes sponsorship, winner and depositor from the chain and
      leaves the rest, a creation takes everything from the job and the chain, a withdrawal changes nothing
      else, and every other attempt changes nothing at all. */
  lemma AttemptMeaning(found: Option<Deposit>, e: Event)
    ensures var record := Attempt(found, e.job, e.live).0;
            && (Refreshes(found, e) ==> record.Some? && ShowsLive(record.value, e.live.value))
            && (Refreshes(found, e) && found.Some? ==> SameButEdit(found.value, record.value))
            && (Refreshes(found, e) && found.None? ==>
                  && record.value.id == e.job.depositId && record.value.poolId == e.job.poolId
                  && record.value.blockHeight == e.job.height && record.value.amount == e.live.value.amount
                  && record.value.withdrawalId == 0)
            && (Withdraws(found, e) ==>
                  record.Some? && record.value.withdrawalId == e.job.withdrawalId
                  && SameButWithdrawal(found.value, record.value))
            && (!Refreshes(found, e) && !Withdraws(found, e) ==> record == found)
  {
  }

  /** An attempt succeeds iff it refreshes or withdraws, or its job is below the height of the record. */
  lemma SuccessMeaning(found: Option<Deposit>, e: Event)
    ensures Attempt(found, e.job, e.live).1.Done?
            <==> Refreshes(found, e) || Withdraws(found, e)
                 || (ValidJob(e.job) && e.job.withdrawalId == 0 && found.Some?
                     && e.job.height < found.value.blockHeight)
  {
  }

  /** How an attempt fails: on a job without its numbers, on a withdrawal of an unknown deposit, and on a
      record to edit or to create of which the chain says nothing. */
  lemma FailureMeaning(found: Option<Deposit>, e: Event)
    ensures var outcome := Attempt(found, e.job, e.live).1;
            && (outcome == Failed(InvalidJobData)
                <==> e.job.depositId == 0 || e.job.poolId == 0 || e.job.height == 0)
            && (outcome == Failed(NoDepositToWithdraw)
                <==> ValidJob(e.job) && e.job.withdrawalId != 0 && found.None?)
            && (outcome == Failed(NoLiveDepositToUpdate)
                <==> ValidJob(e.job) && e.job.withdrawalId == 0 && e.live.None? && found.Some?
                     && e.job.height >= found.value.blockHeight)
            && (outcome == Failed(NoLiveDepositToCreate)
                <==> ValidJob(e.job) && e.job.withdrawalId == 0 && e.live.None? && found.None?)
  {
  }

  // ---- whose answer a record shows ----

  /** The i-th attempt of a run refreshes the record. */
  predicate RefreshesAt(table: Table, events: seq<Event>, id: int, i: int) {
    0 <= i < |events| && events[i].job.depositId == id && Refreshes(Lookup(Run(table, events[..i]), id), events[i])
  }

  ghost predicate LastRefresh(table: Table, events: seq<Event>, id: int, i: int) {
    RefreshesAt(table, events, id, i) && forall j :: i < j < |events| ==> !RefreshesAt(table, events, id, j)
  }

  ghost predicate NeverRefreshed(table: Table, events: seq<Event>, id: int) {
    forall j :: 0 <= j < |events| ==> !RefreshesAt(table, events, id, j)
  }

  lemma RefreshesAtPrefix(table: Table, events: seq<Event>, id: int, j: int)
    requires 0 <= j < |events| - 1
    ensures RefreshesAt(table, events[..|events| - 1], id, j) <==> RefreshesAt(table, events, id, j)
  {
    var before := events[..|events| - 1];
    assert before[..j] == events[..j] && before[j] == events[j];
  }

  predicate SameShown(a: Deposit, b: Deposit) {
    b.isSponsor == a.isSponsor && b.winnerAddress == a.winnerAddress && b.depositorAddress == a.depositorAddress
  }

  /** An attempt that does not refresh a record leaves what it shows of the chain. */
  lemma ShownStays(table: Table, e: Event, id: int)
    requires !(e.job.depositId == id && Refreshes(Lookup(table, id), e))
    ensures id in Apply(table, e) <==> id in table
    ensures id in table ==> SameShown(table[id], Apply(table, e)[id])
  {
    if e.job.depositId == id {
      AttemptMeaning(Lookup(table, id), e);
    }
  }

  lemma LastRefreshPrefix(table: Table, events: seq<Event>, id: int, i: int)
    requires LastRefresh(table, events, id, i) && i < |events| - 1
    ensures LastRefresh(table, events[..|events| - 1], id, i) && events[..|events| - 1][i] == events[i]
  {
    var before := events[..|events| - 1];
    RefreshesAtPrefix(table, events, id, i);
    forall j | i < j < |before|
      ensures !RefreshesAt(table, before, id, j)
    {
      RefreshesAtPrefix(table, events, id, j);
    }
  }

  /** Over every run, with answers of the chain that change at will: sponsorship, winner and depositor of a
      record are those of the last answer that created or edited it. */
  lemma {:induction false} LastAnswerIsShown(table: Table, events: seq<Event>, id: int, i: int)
    requires LastRefresh(table, events, id, i)
    ensures id in Run(table, events) && ShowsLive(Run(table, events)[id], events[i].live.value)
  {
    var n := |events| - 1;
    var before := events[..n];
    if i < n {
      LastRefreshPrefix(table, events, id, i);
      LastAnswerIsShown(table, before, id, i);
      assert !RefreshesAt(table, events, id, n);
      ShownStays(Run(table, before), events[n], id);
    } else {
      AttemptMeaning(Lookup(Run(table, before), id), events[n]);
    }
  }

  /** Without any such attempt a record shows what it did at the start, and a missing one stays missing. */
  lemma {:induction false} NeverRefreshedStays(table: Table, events: seq<Event>, id: int)
    requires NeverRefreshed(table, events, id)
    ensures id in Run(table, events) <==> id in table
    ensures id in table ==> SameShown(table[id], Run(table, events)[id])
  {
    if events != [] {
      var n := |events| - 1;
      forall j | 0 <= j < n
        ensures !RefreshesAt(table, events[..n], id, j)
      {
        RefreshesAtPrefix(table, events, id, j);
      }
      NeverRefreshedStays(table, events[..n], id);
      assert !RefreshesAt(table, events, id, n);
      ShownStays(Run(table, events[..n]), events[n], id);
    }
  }

  // ---- convergence ----

  /** Attempts at jobs of one deposit, over a chain record that does not change but may be out of reach
      at times. The jobs agree on the pool and on the withdrawal, if there is one. */
  ghost predicate SameDeposit(events: seq<Event>, id: int, pool: int, live: LiveDeposit, withdrawal: int) {
    forall i :: 0 <= i < |events| ==>
      && events[i].job.depositId == id && events[i].job.poolId == pool
      && (events[i].live == Some(live) || events[i].live == None)
      && (events[i].job.withdrawalId == 0 || events[i].job.withdrawalId == withdrawal)
  }

  /** The i-th attempt of a run succeeds. */
  predicate Succeeds(events: seq<Event>, i: int)
    requires 0 <= i < |events|
  {
    OutcomeOf(Run(map[], events[..i]), events[i]).Done?
  }

  predicate IsIngest(e: Event) {
    e.job.withdrawalId == 0
  }

  /** The first successful attempt at a job that is not a withdrawal. */
  ghost predicate FirstIngest(events: seq<Event>, i: int) {
    && 0 <= i < |events| && IsIngest(events[i]) && Succeeds(events, i)
    && forall j :: 0 <= j < i && IsIngest(events[j]) ==> !Succeeds(events, j)
  }

  ghost predicate NeverIngested(events: seq<Event>) {
    forall i :: !FirstIngest(events, i)
  }

  ghost predicate SomeWithdrawalSucceeds(events: seq<Event>) {
    exists i :: 0 <= i < |events| && !IsIngest(events[i]) && Succeeds(events, i)
  }

  /** The record a run ends with, told without running it. */
  ghost predicate EndsWith(events: seq<Event>, id: int, pool: int, live: LiveDeposit, withdrawal: int,
                           record: Option<Deposit>)
  {
    && (record.None? <==> NeverIngested(events))
    && (forall i :: FirstIngest(events, i) ==>
          record == Some(Deposit(id, pool, events[i].job.height, live.amount, live.winnerAddress, live.depositorAddress,
                                 live.isSponsor, if SomeWithdrawalSucceeds(events) then withdrawal else 0)))
  }

  lemma PrefixSucceeds(events: seq<Event>, n: nat, i: int)
    requires 0 <= i < n <= |events|
    ensures Succeeds(events[..n], i) <==> Succeeds(events, i)
  {
    assert events[..n][..i] == events[..i] && events[..n][i] == events[i];
  }

  lemma FirstIngestExtends(events: seq<Event>, i: int)
    requires events != []
    ensures i < |events| - 1 ==> (FirstIngest(events[..|events| - 1], i) <==> FirstIngest(events, i))
  {
    var n := |events| - 1;
    forall j | 0 <= j < n
      ensures Succeeds(events[..n], j) <==> Succeeds(events, j)
    {
      PrefixSucceeds(events, n, j);
    }
    assert forall j :: 0 <= j < n ==> events[..n][j] == events[j];
  }

  lemma SomeWithdrawalExtends(events: seq<Event>)
    requires events != []
    ensures var n := |events| - 1;
            SomeWithdrawalSucceeds(events)
            <==> SomeWithdrawalSucceeds(events[..n]) || (!IsIngest(events[n]) && Succeeds(events, n))
  {
    var n := |events| - 1;
    forall j | 0 <= j < n
      ensures Succeeds(events[..n], j) <==> Succeeds(events, j)
    {
      PrefixSucceeds(events, n, j);
    }
    assert forall j :: 0 <= j < n ==> events[..n][j] == events[j];
    if SomeWithdrawalSucceeds(events[..n]) {
      var j :| 0 <= j < n && !IsIngest(events[..n][j]) && Succeeds(events[..n], j);
      assert Succeeds(events, j);
    }
  }

  lemma FirstIngestUnique(events: seq<Event>, i: int, j: int)
    requires FirstIngest(events, i) && FirstIngest(events, j)
    ensures i == j
  {
  }

  lemma LookupAfter(events: seq<Event>, id: int)
    requires events != [] && events[|events| - 1].job.depositId == id
    ensures var n := |events| - 1;
            Lookup(Run(map[], events), id)
            == Attempt(Lookup(Run(map[], events[..n]), id), events[n].job, events[n].live).0
  {
  }

  lemma {:induction false} RunEndsWith(events: seq<Event>, id: int, pool: int, live: LiveDeposit, withdrawal: int)
    requires SameDeposit(events, id, pool, live, withdrawal)
    ensures EndsWith(events, id, pool, live, withdrawal, Lookup(Run(map[], events), id))
  {
    if events != [] {
      var n := |events| - 1;
      var before := events[..n];
      assert SameDeposit(before, id, pool, live, withdrawal) by {
        assert forall j :: 0 <= j < n ==> before[j] == events[j];
      }
      RunEndsWith(before, id, pool, live, withdrawal);
      SomeWithdrawalExtends(events);
      LookupAfter(events, id);
      if Lookup(Run(map[], before), id).None? {
        NoWithdrawalWithoutRecord(before, id, pool, live, withdrawal);
        FirstIngestAtLast(events);
        CreationOfRecord(events[n], live);
        assert FirstIngest(events, n) <==> IsIngest(events[n]) && Succeeds(events, n);
      } else {
        var f :| FirstIngest(before, f);
        FirstIngestExtends(events, f);
        OneFirstIngest(events, f);
        UpdateOfRecord(Lookup(Run(map[], before), id).value, events[n], live, withdrawal);
      }
    } else {
      assert !SomeWithdrawalSucceeds(events);
    }
  }

  lemma OneFirstIngest(events: seq<Event>, f: int)
    requires FirstIngest(events, f)
    ensures forall i :: FirstIngest(events, i) ==> i == f
  {
    forall i | FirstIngest(events, i)
      ensures i == f
    {
      FirstIngestUnique(events, i, f);
    }
  }

  /** An attempt at a record that shows what the chain says changes nothing, but for a withdrawal that
      succeeds. */
  lemma UpdateOfRecord(d: Deposit, e: Event, live: LiveDeposit, withdrawal: int)
    requires ShowsLive(d, live) && (e.live == Some(live) || e.live == None)
    requires e.job.withdrawalId == 0 || e.job.withdrawalId == withdrawal
    ensures Attempt(Some(d), e.job, e.live).0
            == Some(if !IsIngest(e) && Attempt(Some(d), e.job, e.live).1.Done? then d.(withdrawalId := withdrawal)
                    else d)
  {
  }

  lemma FirstIngestAtLast(events: seq<Event>)
    requires events != [] && NeverIngested(events[..|events| - 1])
    ensures var n := |events| - 1;
            forall i :: FirstIngest(events, i) <==> i == n && IsIngest(events[n]) && Succeeds(events, n)
  {
    var n := |events| - 1;
    forall j | 0 <= j < n && IsIngest(events[j])
      ensures !Succeeds(events, j)
    {
      NoIngestYet(events, j);
    }
    forall i
      ensures FirstIngest(events, i) <==> i == n && IsIngest(events[n]) && Succeeds(events, n)
    {
    }
  }

  /** An attempt that finds no record creates it, or fails; a withdrawal fails. */
  lemma CreationOfRecord(e: Event, live: LiveDeposit)
    requires e.live == Some(live) || e.live == None
    ensures var (record, outcome) := Attempt(None, e.job, e.live);
            && (record.Some? <==> outcome.Done?)
            && (outcome.Done? ==> IsIngest(e) && record == Some(Created(e.job, live)))
  {
  }

  lemma NoIngestYet(events: seq<Event>, j: int)
    requires 0 <= j < |events| - 1 && IsIngest(events[j])
    requires NeverIngested(events[..|events| - 1])
    ensures !Succeeds(events, j)
    decreases j
  {
    if Succeeds(events, j) {
      forall l | 0 <= l < j && IsIngest(events[l])
        ensures !Succeeds(events, l)
      {
        NoIngestYet(events, l);
      }
      assert FirstIngest(events, j);
      FirstIngestExtends(events, j);
    }
  }

  /** A withdrawal can only succeed once the record exists. */
  lemma NoWithdrawalWithoutRecord(events: seq<Event>, id: int, pool: int, live: LiveDeposit, withdrawal: int)
    requires SameDeposit(events, id, pool, live, withdrawal) && id !in Run(map[], events)
    ensures !SomeWithdrawalSucceeds(events)
  {
    forall i | 0 <= i < |events| && !IsIngest(events[i])
      ensures !Succeeds(events, i)
    {
      RunSplits(events, i);
      RunKeepsRecords(Run(map[], events[..i]), events[i..]);
    }
  }

  lemma {:induction false} RunSplits(events: seq<Event>, i: nat)
    requires i <= |events|
    ensures Run(map[], events) == Run(Run(map[], events[..i]), events[i..])
    decreases |events|
  {
    if i == |events| {
      assert events[..i] == events;
    } else {
      var n := |events| - 1;
      RunSplits(events[..n], i);
      assert events[..n][..i] == events[..i] && events[..n][i..] == events[i..][..n - i];
    }
  }

  /** Every job of the set succeeds at some attempt of the run, and the run attempts no other job. */
  ghost predicate Completes(events: seq<Event>, jobs: set<DepositJob>) {
    && (forall i :: 0 <= i < |events| ==> events[i].job in jobs)
    && (forall job :: job in jobs ==> exists i :: 0 <= i < |events| && events[i].job == job && Succeeds(events, i))
  }

  /** Two runs that complete the same jobs of a deposit, in any order and with any number of retries,
      end with the same record, but for the block height: that is the height of the first job without a
      withdrawal that succeeded in each. */
  lemma Convergence(jobs: set<DepositJob>, run: seq<Event>, other: seq<Event>, id: int, pool: int, live: LiveDeposit,
                    withdrawal: int)
    requires SameDeposit(run, id, pool, live, withdrawal) && SameDeposit(other, id, pool, live, withdrawal)
    requires Completes(run, jobs) && Completes(other, jobs)
    ensures var a, b := Lookup(Run(map[], run), id), Lookup(Run(map[], other), id);
            && (a.None? <==> jobs == {}) && (b.None? <==> jobs == {})
            && (a.Some? ==> b.value == a.value.(blockHeight := b.value.blockHeight))
            && (forall i :: FirstIngest(run, i) ==> a.Some? && a.value.blockHeight == run[i].job.height)
            && (forall i :: FirstIngest(other, i) ==> b.Some? && b.value.blockHeight == other[i].job.height)
  {
    RunEndsWith(run, id, pool, live, withdrawal);
    RunEndsWith(other, id, pool, live, withdrawal);
    CompletedRun(jobs, run, id, pool, live, withdrawal);
    CompletedRun(jobs, other, id, pool, live, withdrawal);
  }

  lemma CompletedRun(jobs: set<DepositJob>, run: seq<Event>, id: int, pool: int, live: LiveDeposit, withdrawal: int)
    requires SameDeposit(run, id, pool, live, withdrawal) && Completes(run, jobs)
    ensures id !in Run(map[], run) <==> jobs == {}
    ensures SomeWithdrawalSucceeds(run) <==> exists job :: job in jobs && job.withdrawalId != 0
  {
    if exists job :: job in jobs && job.withdrawalId != 0 {
      var job :| job in jobs && job.withdrawalId != 0;
      var i :| 0 <= i < |run| && run[i].job == job && Succeeds(run, i);
      assert !IsIngest(run[i]);
    }
    assert run != [] ==> run[0].job in jobs;
    if jobs != {} {
      var job :| job in jobs;
      var i :| 0 <= i < |run| && run[i].job == job && Succeeds(run, i);
      SuccessMeansRecord(run, i);
    }
  }

  lemma SuccessMeansRecord(run: seq<Event>, i: int)
    requires 0 <= i < |run| && Succeeds(run, i)
    ensures run[i].job.depositId in Run(map[], run)
  {
    RunSplits(run, i + 1);
    assert run[..i + 1][..i] == run[..i] && run[..i + 1][i] == run[i];
    RunKeepsRecords(Run(map[], run[..i + 1]), run[i + 1..]);
  }
}
