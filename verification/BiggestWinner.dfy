/** The biggest winner table: for each address, the win with the highest return on its deposits.

    Returns are exact here. Dividing a prize by no deposits gives infinity, and nothing by nothing is
    not a number, which compares as false with everything. */
module BiggestWinner {
  import opened Occurrences
  import opened Options

  datatype Apr = NaN | Infinite | Finite(value: real)

  datatype Winner = Winner(
    id: string,
    drawId: int,
    rawAmount: nat,
    poolId: int,
    denom: string,
    sumOfDeposits: nat,
    apr: Apr,
    createdAtHeight: int,
    createdAt: int
  )

  type Table = map<string, Winner>

  /** The return of a prize on deposits, as a percentage. */
  function AprOf(rawAmount: nat, sumOfDeposits: nat): (apr: Apr)
    ensures apr.NaN? <==> rawAmount == 0 && sumOfDeposits == 0
    ensures apr.Infinite? <==> rawAmount > 0 && sumOfDeposits == 0
    ensures apr.Finite? ==> apr.value * sumOfDeposits as real == 100.0 * rawAmount as real
  {
    if sumOfDeposits > 0 then Finite(rawAmount as real / sumOfDeposits as real * 100.0)
    else if rawAmount > 0 then Infinite
    else NaN
  }

  predicate AtLeast(a: Apr, b: Apr) {
    match (a, b)
    case (NaN, _) => false
    case (_, NaN) => false
    case (Infinite, _) => true
    case (Finite(_), Infinite) => false
    case (Finite(x), Finite(y)) => x >= y
  }

  lemma ScaleOrder(x: real, y: real, k: real)
    requires k > 0.0
    ensures x >= y <==> x * k >= y * k
  {
    if x >= y { assert (x - y) * k >= 0.0; } else { assert (y - x) * k > 0.0; }
  }

  lemma Regroup(x: real, b: real, d: real)
    ensures (x * b) * d == x * (b * d)
  {
  }

  lemma QuotientOrder(a: real, b: real, c: real, d: real)
    requires b > 0.0 && d > 0.0
    ensures a / b >= c / d <==> a * d >= c * b
  {
    var x, y := a / b, c / d;
    assert x * b == a && y * d == c;
    Regroup(x, b, d);
    Regroup(y, d, b);
    var k := b * d;
    assert k == d * b && k > 0.0;
    ScaleOrder(x, y, k);
  }

  /** Comparing two returns is comparing the cross products of what they are made of, a prize on no
      deposits included; a return of nothing on nothing compares as false with every other. */
  lemma AtLeastByCrossProducts(raw: nat, deposits: nat, raw': nat, deposits': nat)
    ensures AtLeast(AprOf(raw, deposits), AprOf(raw', deposits'))
            <==> (raw > 0 || deposits > 0) && (raw' > 0 || deposits' > 0) && raw * deposits' >= raw' * deposits
  {
    if deposits > 0 && deposits' > 0 {
      FiniteByCrossProducts(raw, deposits, raw', deposits');
    } else if deposits == 0 {
      assert raw' * deposits == 0 && raw * deposits' >= 0;
    } else {
      assert raw * deposits' == 0;
      assert raw' > 0 ==> raw' * deposits > 0;
    }
  }

  lemma FiniteByCrossProducts(raw: nat, deposits: nat, raw': nat, deposits': nat)
    requires deposits > 0 && deposits' > 0
    ensures AtLeast(AprOf(raw, deposits), AprOf(raw', deposits')) <==> raw * deposits' >= raw' * deposits
  {
    var a, b, c, d := raw as real, deposits as real, raw' as real, deposits' as real;
    QuotientOrder(a, b, c, d);
    ScaleOrder(a / b, c / d, 100.0);
    assert (raw * deposits') as real == a * d && (raw' * deposits) as real == c * b;
  }

  function Patched(existing: Winner, entity: Winner): Winner {
    entity.(id := existing.id, createdAt := existing.createdAt)
  }

  function Upsert(existing: Option<Winner>, entity: Winner): Winner {
    if existing.None? then entity
    else if AtLeast(existing.value.apr, entity.apr) then existing.value
    else Patched(existing.value, entity)
  }

  /** What a record is made of: the first win of the address and the one it shows. */
  ghost predicate TakenFrom(record: Winner, first: Winner, shown: Winner) {
    && record.id == first.id && record.createdAt == first.createdAt
    && record.apr == shown.apr && record.rawAmount == shown.rawAmount && record.sumOfDeposits == shown.sumOfDeposits
    && record.poolId == shown.poolId && record.drawId == shown.drawId && record.denom == shown.denom
    && record.createdAtHeight == shown.createdAtHeight
  }

  function Lookup(table: Table, id: string): Option<Winner> {
    if id in table then Some(table[id]) else None
  }

  class BiggestWinnerService {
    var winners: Table

    constructor ()
      ensures winners == map[]
    {
      winners := map[];
    }

    method CreateOrUpdateAccordingToApr(entity: Winner)
      modifies this
      ensures winners == old(winners)[entity.id := Upsert(Lookup(old(winners), entity.id), entity)]
      ensures entity.id !in old(winners) ==> winners[entity.id] == entity
      ensures entity.id in old(winners) ==>
                if AtLeast(old(winners)[entity.id].apr, entity.apr) then winners == old(winners)
                else TakenFrom(winners[entity.id], old(winners)[entity.id], entity)
    {
      if entity.id !in winners {
        winners := winners[entity.id := entity];
        return;
      }
      var existing := winners[entity.id];
      if AtLeast(existing.apr, entity.apr) {
        assert winners[entity.id := existing] == winners;
        return;
      }
      existing := existing.(apr := entity.apr);
      existing := existing.(rawAmount := entity.rawAmount);
      existing := existing.(sumOfDeposits := entity.sumOfDeposits);
      existing := existing.(poolId := entity.poolId);
      existing := existing.(createdAtHeight := entity.createdAtHeight);
      existing := existing.(denom := entity.denom);
      existing := existing.(drawId := entity.drawId);
      winners := winners[entity.id := existing];
    }
  }

  // ---- the record after any history of one address ----

  function RecordAfter(history: seq<Winner>): Option<Winner> {
    if history == [] then None else Some(Upsert(RecordAfter(history[..|history| - 1]), history[|history| - 1]))
  }

  /** The entry the record comes from: the first one that reaches the highest return, counting from the
      last entry whose return is not a number. */
  ghost predicate Chosen(history: seq<Winner>, i: int) {
    && 0 <= i < |history|
    && (history[i].apr.NaN? ==> i == |history| - 1)
    && (forall j :: i < j < |history| ==> AtLeast(history[i].apr, history[j].apr))
    && (forall j :: 0 <= j < i && AtLeast(history[j].apr, history[i].apr) ==> NaNBetween(history, j, i))
  }

  ghost predicate NaNBetween(history: seq<Winner>, j: int, i: int)
    requires 0 <= j < i <= |history|
  {
    exists l :: j < l < i && history[l].apr.NaN?
  }

  lemma AtLeastTransitive(a: Apr, b: Apr, c: Apr)
    requires AtLeast(a, b) && AtLeast(b, c)
    ensures AtLeast(a, c)
  {
  }

  /** The record is a running maximum: return, prize, deposits, pool, draw, denomination and height are those
      of the chosen entry, while the time of creation and the address stay those of the first entry. */
  lemma {:induction false} RecordIsChosen(history: seq<Winner>) returns (i: int)
    requires history != []
    ensures Chosen(history, i)
    ensures RecordAfter(history).Some? && TakenFrom(RecordAfter(history).value, history[0], history[i])
  {
    var n := |history| - 1;
    var before := history[..n];
    if n == 0 {
      i := 0;
      assert before == [];
    } else {
      var k := RecordIsChosen(before);
      assert forall j :: 0 <= j < n ==> before[j] == history[j];
      if AtLeast(history[k].apr, history[n].apr) {
        i := k;
        StillChosen(history, k);
      } else {
        i := n;
        NewlyChosen(history, k);
      }
    }
  }

  lemma StillChosen(history: seq<Winner>, k: int)
    requires history != [] && Chosen(history[..|history| - 1], k)
    requires AtLeast(history[k].apr, history[|history| - 1].apr)
    ensures Chosen(history, k)
  {
    var n := |history| - 1;
    var before := history[..n];
    assert forall j :: 0 <= j < n ==> before[j] == history[j];
    forall j | 0 <= j < k && AtLeast(history[j].apr, history[k].apr)
      ensures NaNBetween(history, j, k)
    {
      assert before[j] == history[j];
      assert NaNBetween(before, j, k);
      var l :| j < l < k && before[l].apr.NaN?;
      assert history[l].apr.NaN?;
    }
  }

  lemma NewlyChosen(history: seq<Winner>, k: int)
    requires history != [] && Chosen(history[..|history| - 1], k)
    requires !AtLeast(history[k].apr, history[|history| - 1].apr)
    ensures Chosen(history, |history| - 1)
  {
    var n := |history| - 1;
    var before := history[..n];
    assert forall j :: 0 <= j < n ==> before[j] == history[j];
    forall j | 0 <= j < n && AtLeast(history[j].apr, history[n].apr)
      ensures NaNBetween(history, j, n)
    {
      EarlierThanNew(history, k, j);
    }
  }

  /** An earlier entry that would beat the newest one lies before an undefined return. */
  lemma EarlierThanNew(history: seq<Winner>, k: int, j: int)
    requires history != [] && Chosen(history[..|history| - 1], k)
    requires !AtLeast(history[k].apr, history[|history| - 1].apr)
    requires 0 <= j < |history| - 1 && AtLeast(history[j].apr, history[|history| - 1].apr)
    ensures NaNBetween(history, j, |history| - 1)
  {
    var n := |history| - 1;
    var before := history[..n];
    assert before[j] == history[j] && before[k] == history[k];
    assert j < k;
    if !history[k].apr.NaN? {
      assert AtLeast(history[j].apr, history[k].apr);
      assert NaNBetween(before, j, k);
      var l :| j < l < k && before[l].apr.NaN?;
      assert history[l].apr.NaN?;
    }
  }

  /** A history has one chosen entry. */
  lemma ChosenUnique(history: seq<Winner>, i: int, j: int)
    requires Chosen(history, i) && Chosen(history, j)
    ensures i == j
  {
  }

  ghost predicate AllComparable(history: seq<Winner>) {
    forall i :: 0 <= i < |history| ==> !history[i].apr.NaN?
  }

  ghost predicate Highest(history: seq<Winner>, apr: Apr) {
    && (exists i :: 0 <= i < |history| && history[i].apr == apr)
    && (forall i :: 0 <= i < |history| ==> AtLeast(apr, history[i].apr))
  }

  /** Without undefined returns the record has the highest return of the whole history. */
  lemma RecordIsHighest(history: seq<Winner>)
    requires history != [] && AllComparable(history)
    ensures Highest(history, RecordAfter(history).value.apr)
  {
    var i := RecordIsChosen(history);
    forall j | 0 <= j < |history|
      ensures AtLeast(history[i].apr, history[j].apr)
    {
      if j < i {
        assert !NaNBetween(history, j, i);
      }
    }
  }

  /** And it does not depend on the order in which the wins were processed. */
  lemma HighestIgnoresOrder(history: seq<Winner>, other: seq<Winner>)
    requires history != [] && AllComparable(history) && multiset(history) == multiset(other)
    ensures other != [] && RecordAfter(other).value.apr == RecordAfter(history).value.apr
  {
    var k := PermutationFind(history, other, 0);
    forall i | 0 <= i < |other|
      ensures !other[i].apr.NaN?
    {
      var j := PermutationFind(other, history, i);
    }
    RecordIsHighest(history);
    RecordIsHighest(other);
    var i :| 0 <= i < |history| && history[i].apr == RecordAfter(history).value.apr;
    var l :| 0 <= l < |other| && other[l].apr == RecordAfter(other).value.apr;
    var j := PermutationFind(history, other, i);
    var m := PermutationFind(other, history, l);
  }

  /** An update leaves a defined record at least as high as it was iff the new return is defined. One that
      is not, nothing won on nothing deposited, replaces any record, however high. */
  lemma NeverLowersIffDefined(existing: Winner, raw: nat, deposits: nat, entity: Winner)
    requires !existing.apr.NaN? && entity.apr == AprOf(raw, deposits)
    ensures AtLeast(Upsert(Some(existing), entity).apr, existing.apr) <==> raw > 0 || deposits > 0
    ensures raw > 0 || deposits > 0 ==> AtLeast(Upsert(Some(existing), entity).apr, entity.apr)
    ensures raw == 0 && deposits == 0 ==> TakenFrom(Upsert(Some(existing), entity), existing, entity)
  {
  }
}
