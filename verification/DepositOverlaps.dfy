/** Attempts at deposit jobs that overlap: each reads the record, and saves the whole row later.

    Deposits describes attempts that run one after the other. Here other attempts may save in between, and
    the lemmas say what is still kept, what can be lost, and exactly when. */
module DepositOverlaps {
  import opened Options
  import opened Deposits

  /** An attempt that read the record and has not saved or stopped is open. */
  datatype Reading = Reading(job: DepositJob, live: Option<LiveDeposit>, found: Option<Deposit>, open: bool)

  datatype State = State(table: Table, readings: seq<Reading>)

  datatype Step =
    | Read(job: DepositJob, live: Option<LiveDeposit>)
    | Save(i: nat)
    | Stop(i: nat)

  function Row(a: Reading): Option<Deposit> {
    RowToSave(a.found, a.job, a.live)
  }

  predicate Enabled(s: State, step: Step) {
    match step
    case Read(_, _) => true
    case Save(i) => i < |s.readings| && s.readings[i].open && Row(s.readings[i]).Some?
    case Stop(i) => i < |s.readings| && s.readings[i].open
  }

  function Close(s: State, i: nat): State
    requires i < |s.readings|
  {
    s.(readings := s.readings[i := s.readings[i].(open := false)])
  }

  function Next(s: State, step: Step): State
    requires Enabled(s, step)
  {
    match step
    case Read(job, live) => s.(readings := s.readings + [Reading(job, live, Lookup(s.table, job.depositId), true)])
    case Save(i) => Close(s.(table := s.table[s.readings[i].job.depositId := Row(s.readings[i]).value]), i)
    case Stop(i) => Close(s, i)
  }

  /** states[k] is the state before the k-th step. */
  ghost predicate IsRun(states: seq<State>, steps: seq<Step>) {
    && |states| == |steps| + 1
    && states[0].readings == []
    && forall k :: 0 <= k < |steps| ==> Enabled(states[k], steps[k]) && states[k + 1] == Next(states[k], steps[k])
  }

  /** The k-th step saves what an attempt at a job of the deposit has worked out. */
  ghost predicate SavesAt(states: seq<State>, steps: seq<Step>, k: int, id: int)
    requires IsRun(states, steps)
  {
    0 <= k < |steps| && steps[k].Save? && states[k].readings[steps[k].i].job.depositId == id
  }

  /** The attempt whose row the k-th step saves. */
  ghost function Saver(states: seq<State>, steps: seq<Step>, k: int): Reading
    requires IsRun(states, steps) && 0 <= k < |steps| && steps[k].Save?
  {
    states[k].readings[steps[k].i]
  }

  /** Reading i was opened by step r. */
  ghost predicate OpenedAt(states: seq<State>, steps: seq<Step>, i: nat, r: int)
    requires IsRun(states, steps)
  {
    0 <= r < |steps| && steps[r].Read? && |states[r].readings| == i
  }

  /** What a reading is known to be: the job, the answer of the chain and the record of the moment it was
      opened. */
  ghost predicate IsReading(states: seq<State>, steps: seq<Step>, a: Reading, r: int)
    requires IsRun(states, steps) && 0 <= r < |steps| && steps[r].Read?
  {
    a.job == steps[r].job && a.live == steps[r].live && a.found == Lookup(states[r].table, steps[r].job.depositId)
  }

  lemma {:induction false} ReadingOpened(states: seq<State>, steps: seq<Step>, n: nat, i: nat) returns (r: int)
    requires IsRun(states, steps) && n <= |steps| && i < |states[n].readings|
    ensures OpenedAt(states, steps, i, r) && r < n && IsReading(states, steps, states[n].readings[i], r)
    decreases n
  {
    assert states[n] == Next(states[n - 1], steps[n - 1]);
    if i < |states[n - 1].readings| {
      r := ReadingOpened(states, steps, n - 1, i);
    } else {
      r := n - 1;
    }
  }

  // ---- what every run keeps ----

  lemma OnlySavesChange(states: seq<State>, steps: seq<Step>, k: nat, id: int)
    requires IsRun(states, steps) && k < |steps|
    ensures Lookup(states[k + 1].table, id)
            == if SavesAt(states, steps, k, id) then Row(Saver(states, steps, k)) else Lookup(states[k].table, id)
  {
  }

  /** Records are never removed, however attempts overlap. */
  lemma {:induction false} RecordsStay(states: seq<State>, steps: seq<Step>, k: nat, l: nat, id: int)
    requires IsRun(states, steps) && k <= l <= |steps| && id in states[k].table
    ensures id in states[l].table
    decreases l - k
  {
    if k < l {
      OnlySavesChange(states, steps, k, id);
      RecordsStay(states, steps, k + 1, l, id);
    }
  }

  /** Pool, amount and block height of a record. */
  function Fixed(d: Deposit): (int, Amount, int) {
    (d.poolId, d.amount, d.blockHeight)
  }

  /** Attempt r found no record, and step w saves the one it creates. */
  ghost predicate CreatedFrom(states: seq<State>, steps: seq<Step>, id: int, r: int, w: int)
    requires IsRun(states, steps)
  {
    && 0 <= r < w < |steps|
    && steps[r].Read? && steps[r].job.depositId == id && id !in states[r].table
    && steps[w] == Save(|states[r].readings|)
  }

  lemma SaverOfReading(states: seq<State>, steps: seq<Step>, r: int, w: int)
    requires IsRun(states, steps) && 0 <= r < w < |steps|
    requires steps[r].Read? && steps[w] == Save(|states[r].readings|)
    ensures IsReading(states, steps, Saver(states, steps, w), r)
  {
    var q := ReadingOpened(states, steps, w, |states[r].readings|);
    OpenedOnce(states, steps, q, r);
  }

  lemma {:induction false} ReadingsGrow(states: seq<State>, steps: seq<Step>, k: nat, l: nat)
    requires IsRun(states, steps) && k <= l <= |steps|
    ensures |states[k].readings| <= |states[l].readings|
    decreases l - k
  {
    if k < l {
      ReadingsGrow(states, steps, k + 1, l);
    }
  }

  lemma OpenedOnce(states: seq<State>, steps: seq<Step>, q: int, r: int)
    requires IsRun(states, steps) && 0 <= q < |steps| && 0 <= r < |steps|
    requires OpenedAt(states, steps, |states[r].readings|, q) && steps[r].Read?
    ensures q == r
  {
    if q < r {
      ReadingsGrow(states, steps, q + 1, r);
    } else if r < q {
      ReadingsGrow(states, steps, r + 1, q);
    }
  }

  ghost predicate FixedChanges(states: seq<State>, steps: seq<Step>, id: int, k: int)
    requires IsRun(states, steps)
  {
    && 0 <= k < |steps| && id in states[k].table
    && (id !in states[k + 1].table || Fixed(states[k + 1].table[id]) != Fixed(states[k].table[id]))
  }

  ghost predicate NoFixedChange(states: seq<State>, steps: seq<Step>, id: int, n: int)
    requires IsRun(states, steps)
  {
    forall k :: 0 <= k < n ==> !FixedChanges(states, steps, id, k)
  }

  /** As long as nothing changed them, every record that was read has the fields the stored one has. */
  ghost predicate ReadFixed(s: State, id: int) {
    forall i :: 0 <= i < |s.readings| && s.readings[i].job.depositId == id && s.readings[i].found.Some?
                ==> id in s.table && Fixed(s.readings[i].found.value) == Fixed(s.table[id])
  }

  lemma {:induction false} FixedAsRead(states: seq<State>, steps: seq<Step>, n: nat, id: int)
    requires IsRun(states, steps) && n <= |steps| && NoFixedChange(states, steps, id, n)
    ensures ReadFixed(states[n], id)
  {
    if n > 0 {
      FixedAsRead(states, steps, n - 1, id);
      OnlySavesChange(states, steps, n - 1, id);
      assert !FixedChanges(states, steps, id, n - 1);
      assert states[n] == Next(states[n - 1], steps[n - 1]);
    }
  }

  lemma {:induction false} FirstFixedChange(states: seq<State>, steps: seq<Step>, id: int, k: nat) returns (f: nat)
    requires IsRun(states, steps) && FixedChanges(states, steps, id, k)
    ensures f <= k && FixedChanges(states, steps, id, f) && NoFixedChange(states, steps, id, f)
    decreases k
  {
    if j :| 0 <= j < k && FixedChanges(states, steps, id, j) {
      f := FirstFixedChange(states, steps, id, j);
    } else {
      f := k;
    }
  }

  lemma {:induction false} ChangeBetween(states: seq<State>, steps: seq<Step>, id: int, k: nat, l: nat) returns (f: nat)
    requires IsRun(states, steps) && k <= l <= |steps| && id in states[k].table
    ensures id in states[l].table
    ensures Fixed(states[l].table[id]) != Fixed(states[k].table[id])
            ==> FixedChanges(states, steps, id, f) && k <= f < l
    decreases l - k
  {
    f := k;
    if k < l {
      OnlySavesChange(states, steps, k, id);
      f := ChangeBetween(states, steps, id, k + 1, l);
      if Fixed(states[k + 1].table[id]) != Fixed(states[k].table[id]) { f := k; }
    }
  }

  lemma {:induction false} Appears(states: seq<State>, steps: seq<Step>, id: int, k: nat, l: nat) returns (w: nat)
    requires IsRun(states, steps) && k <= l <= |steps| && id !in states[k].table && id in states[l].table
    ensures k <= w < l && id !in states[w].table && id in states[w + 1].table
    decreases l - k
  {
    if id in states[k + 1].table {
      w := k;
    } else {
      w := Appears(states, steps, id, k + 1, l);
    }
  }

  /** The step at which a record appears saves one that an attempt creates. */
  lemma AppearsByCreation(states: seq<State>, steps: seq<Step>, id: int, w: nat) returns (r: int)
    requires IsRun(states, steps) && w < |steps| && id !in states[w].table && id in states[w + 1].table
    ensures CreatedFrom(states, steps, id, r, w)
  {
    OnlySavesChange(states, steps, w, id);
    r := ReadingOpened(states, steps, w, steps[w].i);
    if id in states[r].table {
      RecordsStay(states, steps, r, w, id);
    }
  }

  /** What a creation leaves. */
  lemma CreationSaves(states: seq<State>, steps: seq<Step>, id: int, r: int, w: int)
    requires IsRun(states, steps) && CreatedFrom(states, steps, id, r, w)
    ensures steps[r].live.Some?
    ensures Lookup(states[w + 1].table, id) == Some(Created(steps[r].job, steps[r].live.value))
  {
    SaverOfReading(states, steps, r, w);
    OnlySavesChange(states, steps, w, id);
  }

  /** Attempts r and q both found no record; r saves at w what it creates, q does so later, at v; and by
      their jobs and the answers of the chain the two records differ in pool, amount or block height. */
  ghost predicate CreatedTwice(states: seq<State>, steps: seq<Step>, id: int, r: int, w: int, q: int, v: int)
    requires IsRun(states, steps)
  {
    && CreatedFrom(states, steps, id, r, w) && CreatedFrom(states, steps, id, q, v) && w < v
    && steps[r].live.Some? && steps[q].live.Some?
    && Fixed(Created(steps[r].job, steps[r].live.value)) != Fixed(Created(steps[q].job, steps[q].live.value))
  }

  lemma ChangedByCreations(states: seq<State>, steps: seq<Step>, id: int, k: nat)
      returns (r: int, w: nat, q: int, v: nat)
    requires IsRun(states, steps) && FixedChanges(states, steps, id, k)
    ensures CreatedTwice(states, steps, id, r, w, q, v)
  {
    v := FirstFixedChange(states, steps, id, k);
    FixedAsRead(states, steps, v, id);
    OnlySavesChange(states, steps, v, id);
    q := ReadingOpened(states, steps, v, steps[v].i);
    assert CreatedFrom(states, steps, id, q, v);
    w := Appears(states, steps, id, q, v);
    r := AppearsByCreation(states, steps, id, w);
    CreationSaves(states, steps, id, r, w);
    CreationSaves(states, steps, id, q, v);
    var f := ChangeBetween(states, steps, id, w + 1, v);
  }

  /** Pool, amount and block height of a stored record change during a run iff two creations of it overlap
      that differ in them. */
  lemma FixedFieldsChangeIff(states: seq<State>, steps: seq<Step>, id: int)
    requires IsRun(states, steps)
    ensures (exists k :: FixedChanges(states, steps, id, k))
            <==> (exists r, w, q, v :: CreatedTwice(states, steps, id, r, w, q, v))
  {
    if k :| FixedChanges(states, steps, id, k) {
      var r, w, q, v := ChangedByCreations(states, steps, id, k);
    }
    if r, w, q, v :| CreatedTwice(states, steps, id, r, w, q, v) {
      CreationSaves(states, steps, id, r, w);
      CreationSaves(states, steps, id, q, v);
      var f := ChangeBetween(states, steps, id, w + 1, v + 1);
    }
  }

  // ---- withdrawals ----

  predicate Marked(s: State, id: int) {
    id in s.table && s.table[id].withdrawalId != 0
  }

  ghost predicate ForgottenAt(states: seq<State>, steps: seq<Step>, id: int, k: int)
    requires IsRun(states, steps)
  {
    0 <= k < |steps| && Marked(states[k], id) && !Marked(states[k + 1], id)
  }

  /** The p-th step saves what an attempt at a withdrawal has worked out. */
  ghost predicate Withdraws(states: seq<State>, steps: seq<Step>, id: int, p: int)
    requires IsRun(states, steps)
  {
    SavesAt(states, steps, p, id) && Saver(states, steps, p).job.withdrawalId != 0
  }

  /** Attempt r, at a job without a withdrawal, found no withdrawal; step p saves one; step w saves what r
      has worked out. */
  ghost predicate Overtaken(states: seq<State>, steps: seq<Step>, id: int, r: int, p: int, w: int)
    requires IsRun(states, steps)
  {
    && 0 <= r < p < w < |steps|
    && steps[r].Read? && steps[r].job.depositId == id && steps[r].job.withdrawalId == 0 && !Marked(states[r], id)
    && Withdraws(states, steps, id, p)
    && steps[w] == Save(|states[r].readings|)
  }

  lemma {:induction false} ForgottenBetween(states: seq<State>, steps: seq<Step>, id: int, k: nat, l: nat)
      returns (f: nat)
    requires IsRun(states, steps) && k <= l <= |steps| && Marked(states[k], id) && !Marked(states[l], id)
    ensures k <= f < l && ForgottenAt(states, steps, id, f)
    decreases l - k
  {
    if Marked(states[k + 1], id) {
      f := ForgottenBetween(states, steps, id, k + 1, l);
    } else {
      f := k;
    }
  }

  lemma OvertakenIsForgotten(states: seq<State>, steps: seq<Step>, id: int, r: int, p: int, w: int) returns (f: nat)
    requires IsRun(states, steps) && Overtaken(states, steps, id, r, p, w)
    ensures ForgottenAt(states, steps, id, f)
  {
    OnlySavesChange(states, steps, p, id);
    SaverOfReading(states, steps, r, w);
    OnlySavesChange(states, steps, w, id);
    f := ForgottenBetween(states, steps, id, p + 1, w + 1);
  }

  ghost predicate NeverForgotten(states: seq<State>, steps: seq<Step>, id: int, n: int)
    requires IsRun(states, steps)
  {
    forall k :: 0 <= k < n ==> !ForgottenAt(states, steps, id, k)
  }

  /** The reading is for the deposit and found no withdrawal. */
  predicate FoundUnmarked(a: Reading, id: int) {
    a.job.depositId == id && (a.found.None? || a.found.value.withdrawalId == 0)
  }

  /** While the record has no withdrawal and never lost one, nobody has read one. */
  lemma {:induction false} NobodySawOne(states: seq<State>, steps: seq<Step>, id: int, n: nat, i: nat)
    requires IsRun(states, steps) && n <= |steps| && NeverForgotten(states, steps, id, n) && !Marked(states[n], id)
    requires i < |states[n].readings| && states[n].readings[i].job.depositId == id
    ensures FoundUnmarked(states[n].readings[i], id)
    decreases n
  {
    assert states[n] == Next(states[n - 1], steps[n - 1]);
    assert !ForgottenAt(states, steps, id, n - 1);
    if i < |states[n - 1].readings| {
      NobodySawOne(states, steps, id, n - 1, i);
    }
  }

  /** When the record has a withdrawal and never lost one, an attempt that found none was opened before a
      withdrawal was saved. */
  lemma {:induction false} SavedSince(states: seq<State>, steps: seq<Step>, id: int, n: nat, i: nat, r: int)
      returns (p: int)
    requires IsRun(states, steps) && n <= |steps| && NeverForgotten(states, steps, id, n) && Marked(states[n], id)
    requires OpenedAt(states, steps, i, r) && r < n && steps[r].job.depositId == id && !Marked(states[r], id)
    ensures r < p < n && Withdraws(states, steps, id, p)
    decreases n
  {
    OnlySavesChange(states, steps, n - 1, id);
    if Marked(states[n - 1], id) {
      p := SavedSince(states, steps, id, n - 1, i, r);
    } else {
      p := n - 1;
      NobodySawOne(states, steps, id, n - 1, steps[p].i);
    }
  }

  lemma {:induction false} FirstForgotten(states: seq<State>, steps: seq<Step>, id: int, k: nat) returns (f: nat)
    requires IsRun(states, steps) && ForgottenAt(states, steps, id, k)
    ensures f <= k && ForgottenAt(states, steps, id, f) && NeverForgotten(states, steps, id, f)
    decreases k
  {
    if j :| 0 <= j < k && ForgottenAt(states, steps, id, j) {
      f := FirstForgotten(states, steps, id, j);
    } else {
      f := k;
    }
  }

  /** A withdrawal is forgotten during a run iff some attempt at a job without a withdrawal read the record
      before a withdrawal was saved and saves after it. */
  lemma ForgottenIffOvertaken(states: seq<State>, steps: seq<Step>, id: int)
    requires IsRun(states, steps)
    ensures (exists k :: ForgottenAt(states, steps, id, k))
            <==> (exists r, p, w :: Overtaken(states, steps, id, r, p, w))
  {
    if k :| ForgottenAt(states, steps, id, k) {
      var f := FirstForgotten(states, steps, id, k);
      OnlySavesChange(states, steps, f, id);
      var r := ReadingOpened(states, steps, f, steps[f].i);
      var p := SavedSince(states, steps, id, f, steps[f].i, r);
      assert Overtaken(states, steps, id, r, p, f);
    }
    if r, p, w :| Overtaken(states, steps, id, r, p, w) {
      var f := OvertakenIsForgotten(states, steps, id, r, p, w);
    }
  }

  /** Such runs exist: a deposit is created, an edit and a withdrawal read it, the withdrawal saves, and then
      the edit writes the missing withdrawal back. */
  lemma WithdrawalCanBeForgotten(edit: DepositJob, withdrawal: DepositJob, live: LiveDeposit)
      returns (states: seq<State>, steps: seq<Step>)
    requires ValidJob(edit) && edit.withdrawalId == 0
    requires ValidJob(withdrawal) && withdrawal.withdrawalId != 0 && withdrawal.depositId == edit.depositId
    ensures IsRun(states, steps) && states[0] == State(map[], [])
    ensures Overtaken(states, steps, edit.depositId, 2, 4, 5) && ForgottenAt(states, steps, edit.depositId, 5)
  {
    var id := edit.depositId;
    var d := Created(edit, live);
    var w := d.(withdrawalId := withdrawal.withdrawalId);
    var a0 := Reading(edit, Some(live), None, true);
    var a1 := Reading(edit, Some(live), Some(d), true);
    var a2 := Reading(withdrawal, None, Some(d), true);
    var closed0, closed1, closed2 := a0.(open := false), a1.(open := false), a2.(open := false);
    steps := [Read(edit, Some(live)), Save(0), Read(edit, Some(live)), Read(withdrawal, None), Save(2), Save(1)];
    states := [State(map[], []), State(map[], [a0]), State(map[id := d], [closed0]),
               State(map[id := d], [closed0, a1]), State(map[id := d], [closed0, a1, a2]),
               State(map[id := w], [closed0, a1, closed2]), State(map[id := d], [closed0, closed1, closed2])];
    assert Edited(d, live) == d;
    forall k | 0 <= k < |steps|
      ensures Enabled(states[k], steps[k]) && states[k + 1] == Next(states[k], steps[k])
    {
      assert k == 0 || k == 1 || k == 2 || k == 3 || k == 4 || k == 5;
    }
  }

  // ---- attempts that are not overtaken ----

  /** Whenever an attempt saves, the record is still as it read it. */
  ghost predicate Undisturbed(states: seq<State>, steps: seq<Step>)
    requires IsRun(states, steps)
  {
    forall k :: 0 <= k < |steps| && steps[k].Save?
                ==> Saver(states, steps, k).found == Lookup(states[k].table, Saver(states, steps, k).job.depositId)
  }

  /** The attempts of the first n steps, those that save at the time they do, the others when they read. */
  ghost function EventsOf(states: seq<State>, steps: seq<Step>, n: nat): seq<Event>
    requires IsRun(states, steps) && n <= |steps|
  {
    if n == 0 then []
    else EventsOf(states, steps, n - 1) + EventAt(states[n - 1], steps[n - 1])
  }

  ghost function EventAt(s: State, step: Step): seq<Event>
    requires Enabled(s, step)
  {
    match step
    case Read(job, live) =>
      if RowToSave(Lookup(s.table, job.depositId), job, live).None? then [Event(job, live)] else []
    case Save(i) => [Event(s.readings[i].job, s.readings[i].live)]
    case Stop(_) => []
  }

  lemma RunOneMore(table: Table, events: seq<Event>, e: Event)
    ensures Run(table, events + [e]) == Deposits.Apply(Run(table, events), e)
  {
    assert (events + [e])[..|events|] == events;
  }

  /** A run in which no attempt is overtaken does what its attempts do one after the other: everything that
      Deposits says about such runs holds for it. */
  lemma {:induction false} UndisturbedIsAtomic(states: seq<State>, steps: seq<Step>, n: nat)
    requires IsRun(states, steps) && Undisturbed(states, steps) && n <= |steps|
    ensures states[n].table == Run(states[0].table, EventsOf(states, steps, n))
  {
    if n > 0 {
      var before, s, step := EventsOf(states, steps, n - 1), states[n - 1], steps[n - 1];
      UndisturbedIsAtomic(states, steps, n - 1);
      assert states[n] == Next(s, step);
      if step.Save? {
        RunOneMore(states[0].table, before, Event(s.readings[step.i].job, s.readings[step.i].live));
      } else if step.Read? && RowToSave(Lookup(s.table, step.job.depositId), step.job, step.live).None? {
        RunOneMore(states[0].table, before, Event(step.job, step.live));
        ApplyWithoutRow(s.table, Event(step.job, step.live));
      } else {
        assert before + [] == before;
      }
    }
  }

  lemma ApplyWithoutRow(table: Table, e: Event)
    requires RowToSave(Lookup(table, e.job.depositId), e.job, e.live).None?
    ensures Deposits.Apply(table, e) == table
  {
    if e.job.depositId in table {
      assert table[e.job.depositId := table[e.job.depositId]] == table;
    }
  }

  /** Such a run forgets no withdrawal and keeps pool, amount and block height of every record. */
  lemma UndisturbedKeepsRecords(states: seq<State>, steps: seq<Step>)
    requires IsRun(states, steps) && Undisturbed(states, steps)
    ensures forall id :: id in states[0].table
                         ==> id in states[|steps|].table && Keeps(states[0].table[id], states[|steps|].table[id])
  {
    UndisturbedIsAtomic(states, steps, |steps|);
    RunKeepsRecords(states[0].table, EventsOf(states, steps, |steps|));
  }
}
