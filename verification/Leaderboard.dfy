/** The leaderboard of a pool: its depositors sorted by what they deposited, ranked, and written over
    the previous leaderboard of the pool. */
module Leaderboard {
  import opened Decimal
  import opened Occurrences
  import opened Options
  import opened Paging
  import opened Grouping

  // ---- sorting ----

  /** Puts e behind every entry that is at least as large. */
  function Insert(sorted: seq<Entry>, e: Entry): seq<Entry> {
    if sorted == [] then [e]
    else
      var n := |sorted| - 1;
      if sorted[n].amount >= e.amount then sorted + [e] else Insert(sorted[..n], e) + [sorted[n]]
  }

  /** Stands for the stable library sort by descending amount; StableSortUnique says that any other
      stable sort gives the same list. */
  function Sort(es: seq<Entry>): seq<Entry> {
    if es == [] then [] else Insert(Sort(es[..|es| - 1]), es[|es| - 1])
  }

  /** x comes before y: it is larger, or equally large and earlier in the given list. */
  ghost predicate Before(es: seq<Entry>, x: Entry, y: Entry) {
    x in es && y in es && (x.amount > y.amount || (x.amount == y.amount && FirstIndex(es, x) < FirstIndex(es, y)))
  }

  ghost predicate InOrder(es: seq<Entry>, r: seq<Entry>) {
    forall i, j :: 0 <= i < j < |r| ==> Before(es, r[i], r[j])
  }

  /** r holds the entries of es, larger ones first, equal ones in their original order. */
  ghost predicate IsStableSort(es: seq<Entry>, r: seq<Entry>) {
    SameElements(es, r) && InOrder(es, r)
  }

  ghost predicate AllBelow(es: seq<Entry>, r: seq<Entry>, e: Entry)
    requires e in es
  {
    forall i :: 0 <= i < |r| ==> r[i] in es && FirstIndex(es, r[i]) < FirstIndex(es, e)
  }

  lemma {:induction false} InsertElements(r: seq<Entry>, e: Entry)
    ensures |Insert(r, e)| == |r| + 1
    ensures forall x :: x in Insert(r, e) <==> x in r || x == e
  {
    if r != [] {
      var n := |r| - 1;
      assert r == r[..n] + [r[n]];
      if r[n].amount < e.amount { InsertElements(r[..n], e); }
    }
  }

  lemma AppendInOrder(es: seq<Entry>, r: seq<Entry>, x: Entry)
    requires InOrder(es, r) && forall i :: 0 <= i < |r| ==> Before(es, r[i], x)
    ensures InOrder(es, r + [x])
  {
  }

  lemma InsertBeforeLast(es: seq<Entry>, r: seq<Entry>, e: Entry, i: int)
    requires r != [] && InOrder(es, r) && Before(es, e, r[|r| - 1]) && 0 <= i < |Insert(r[..|r| - 1], e)|
    ensures Before(es, Insert(r[..|r| - 1], e)[i], r[|r| - 1])
  {
    var n := |r| - 1;
    var x := Insert(r[..n], e)[i];
    InsertElements(r[..n], e);
    assert x in Insert(r[..n], e);
    if x != e {
      var k :| 0 <= k < n && r[..n][k] == x;
      assert Before(es, r[k], r[n]);
    }
  }

  lemma {:induction false} InsertInOrder(es: seq<Entry>, r: seq<Entry>, e: Entry)
    requires e in es && InOrder(es, r) && AllBelow(es, r, e)
    ensures InOrder(es, Insert(r, e))
  {
    if r != [] {
      var n := |r| - 1;
      if r[n].amount >= e.amount {
        assert forall i :: 0 <= i < n ==> Before(es, r[i], r[n]);
        AppendInOrder(es, r, e);
      } else {
        InsertInOrder(es, r[..n], e);
        forall i | 0 <= i < |Insert(r[..n], e)|
          ensures Before(es, Insert(r[..n], e)[i], r[n])
        {
          InsertBeforeLast(es, r, e, i);
        }
        AppendInOrder(es, Insert(r[..n], e), r[n]);
      }
    }
  }

  lemma InOrderGrows(es: seq<Entry>, r: seq<Entry>, e: Entry)
    requires SameElements(es, r) && InOrder(es, r) && e !in es
    ensures InOrder(es + [e], r) && AllBelow(es + [e], r, e)
  {
    forall i | 0 <= i < |r|
      ensures r[i] in es + [e] && FirstIndex(es + [e], r[i]) == FirstIndex(es, r[i]) < |es|
    {
      FirstIndexGrows(es, e, r[i]);
    }
    FirstIndexGrows(es, e, e);
    forall i, j | 0 <= i < j < |r|
      ensures Before(es + [e], r[i], r[j])
    {
      assert Before(es, r[i], r[j]);
    }
  }

  lemma {:induction false} SortIsStable(es: seq<Entry>)
    requires NoRepeat(es)
    ensures IsStableSort(es, Sort(es)) && |Sort(es)| == |es|
  {
    if es != [] {
      var n := |es| - 1;
      var before, e := es[..n], es[n];
      assert before + [e] == es;
      SortIsStable(before);
      InOrderGrows(before, Sort(before), e);
      InsertInOrder(es, Sort(before), e);
      InsertElements(Sort(before), e);
      InsertSameElements(before, Sort(before), e);
    }
  }

  lemma InsertSameElements(es: seq<Entry>, r: seq<Entry>, e: Entry)
    requires SameElements(es, r)
    ensures SameElements(es + [e], Insert(r, e))
  {
    InsertElements(r, e);
    var u := Insert(r, e);
    forall i | 0 <= i < |u|
      ensures u[i] in es + [e]
    {
      assert u[i] in u;
    }
  }

  ghost predicate Within(r: seq<Entry>, u: seq<Entry>) {
    forall i :: 0 <= i < |r| ==> r[i] in u
  }

  lemma LastIsLast(es: seq<Entry>, r: seq<Entry>, u: seq<Entry>)
    requires InOrder(es, r) && InOrder(es, u) && SameElements(r, u) && r != [] && u != []
    ensures r[|r| - 1] == u[|u| - 1]
  {
    var n, m := |r| - 1, |u| - 1;
    var x, y := r[n], u[m];
    assert x in u && y in r;
    var i :| 0 <= i < |u| && u[i] == x;
    var j :| 0 <= j < |r| && r[j] == y;
    assert i < m ==> Before(es, x, y);
    assert j < n ==> Before(es, y, x);
  }

  lemma ElementsInit(es: seq<Entry>, r: seq<Entry>, u: seq<Entry>)
    requires InOrder(es, r) && SameElements(r, u) && r != [] && u != [] && r[|r| - 1] == u[|u| - 1]
    ensures Within(r[..|r| - 1], u[..|u| - 1])
  {
    var n, m := |r| - 1, |u| - 1;
    forall i | 0 <= i < n
      ensures r[..n][i] in u[..m]
    {
      assert r[i] in u;
      var j :| 0 <= j < |u| && u[j] == r[i];
      assert Before(es, r[i], r[n]);
      assert u[..m][j] == r[i];
    }
  }

  lemma InitInOrder(es: seq<Entry>, r: seq<Entry>)
    requires InOrder(es, r) && r != []
    ensures InOrder(es, r[..|r| - 1])
  {
    var n := |r| - 1;
    forall i, j | 0 <= i < j < n
      ensures Before(es, r[..n][i], r[..n][j])
    {
      assert Before(es, r[i], r[j]);
    }
  }

  lemma InitSameElements(es: seq<Entry>, r: seq<Entry>, u: seq<Entry>)
    requires InOrder(es, r) && InOrder(es, u) && SameElements(r, u) && r != [] && u != []
    ensures r[|r| - 1] == u[|u| - 1] && SameElements(r[..|r| - 1], u[..|u| - 1])
  {
    LastIsLast(es, r, u);
    ElementsInit(es, r, u);
    ElementsInit(es, u, r);
  }

  /** There is one stable sort of a list without repetitions, whatever the algorithm. */
  lemma {:induction false} StableSortUnique(es: seq<Entry>, r: seq<Entry>, u: seq<Entry>)
    requires InOrder(es, r) && InOrder(es, u) && SameElements(r, u)
    ensures r == u
    decreases |r|
  {
    assert u != [] ==> u[0] in r;
    if r != [] {
      assert r[0] in u;
      var n, m := |r| - 1, |u| - 1;
      var rest, other := r[..n], u[..m];
      InitInOrder(es, r);
      InitInOrder(es, u);
      InitSameElements(es, r, u);
      StableSortUnique(es, rest, other);
      assert r == rest + [r[n]] && u == other + [u[m]];
    }
  }

  // ---- rows ----

  datatype Row = Row(id: string, address: string, poolId: int, amount: int, rank: int, denom: string)

  function RowId(poolId: int, address: string): string {
    Print(poolId) + ("-" + address)
  }

  /** Row identifiers never clash, neither within a pool nor between pools. */
  lemma RowIdInjective(p: int, a: string, q: int, b: string)
    requires RowId(p, a) == RowId(q, b)
    ensures p == q && a == b
  {
    PrintIsPrefixCode(p, "-" + a, q, "-" + b);
    CancelPrefix("-", a, b);
  }

  function RowsOf(poolId: int, denom: string, sorted: seq<Entry>): (rows: seq<Row>)
    ensures |rows| == |sorted|
    ensures forall i :: 0 <= i < |rows| ==>
              rows[i] == Row(RowId(poolId, sorted[i].address), sorted[i].address, poolId, sorted[i].amount, i + 1,
                             denom)
  {
    seq(|sorted|, i requires 0 <= i < |sorted| =>
      Row(RowId(poolId, sorted[i].address), sorted[i].address, poolId, sorted[i].amount, i + 1, denom))
  }

  function Ranking(poolId: int, denom: string, ds: seq<ChainDeposit>): seq<Row> {
    RowsOf(poolId, denom, Sort(Grouped(ds)))
  }

  /** Row i belongs to a depositor, with its rank and all it deposited. */
  ghost predicate RowIsRight(poolId: int, denom: string, ds: seq<ChainDeposit>, rows: seq<Row>, i: int)
    requires 0 <= i < |rows|
  {
    && rows[i].rank == i + 1 && rows[i].poolId == poolId && rows[i].id == RowId(poolId, rows[i].address)
    && rows[i].denom == denom && rows[i].address in Depositors(ds) && rows[i].amount == Total(ds, rows[i].address)
  }

  /** The depositor of row x ranks ahead of another one's row y. */
  ghost predicate RanksAhead(ds: seq<ChainDeposit>, x: Row, y: Row) {
    && x.address != y.address
    && x.amount >= y.amount
    && x.address in Depositors(ds) && y.address in Depositors(ds)
    && (x.amount == y.amount ==> FirstIndex(Depositors(ds), x.address) < FirstIndex(Depositors(ds), y.address))
  }

  /** What a leaderboard says: ranks 1 to n, amounts that do not increase, ties in the order in which the
      depositors first appeared, one row for each depositor with all it deposited. */
  ghost predicate IsLeaderboard(poolId: int, denom: string, ds: seq<ChainDeposit>, rows: seq<Row>) {
    && (forall i :: 0 <= i < |rows| ==> RowIsRight(poolId, denom, ds, rows, i))
    && (forall i, j :: 0 <= i < j < |rows| ==> RanksAhead(ds, rows[i], rows[j]))
    && (forall a :: a in Depositors(ds) ==> exists i :: 0 <= i < |rows| && rows[i].address == a)
  }

  lemma SortedEntry(ds: seq<ChainDeposit>, i: int) returns (k: nat)
    requires 0 <= i < |Sort(Grouped(ds))|
    ensures Sort(Grouped(ds))[i] in Grouped(ds)
    ensures k == FirstIndex(Grouped(ds), Sort(Grouped(ds))[i]) < |Dedup(Depositors(ds))|
    ensures Dedup(Depositors(ds))[k] == Sort(Grouped(ds))[i].address && Dedup(Depositors(ds))[k] in Depositors(ds)
    ensures Sort(Grouped(ds))[i].amount == Total(ds, Sort(Grouped(ds))[i].address)
  {
    GroupedAddresses(ds);
    SortIsStable(Grouped(ds));
    k := FirstIndex(Grouped(ds), Sort(Grouped(ds))[i]);
  }

  lemma SortedPair(ds: seq<ChainDeposit>, i: int, j: int)
    requires 0 <= i < j < |Sort(Grouped(ds))|
    ensures var x, y := Sort(Grouped(ds))[i], Sort(Grouped(ds))[j];
            && x.address != y.address && x.amount >= y.amount
            && x.address in Depositors(ds) && y.address in Depositors(ds)
            && (x.amount == y.amount ==> FirstIndex(Depositors(ds), x.address) < FirstIndex(Depositors(ds), y.address))
  {
    GroupedAddresses(ds);
    SortIsStable(Grouped(ds));
    assert Before(Grouped(ds), Sort(Grouped(ds))[i], Sort(Grouped(ds))[j]);
    var k := SortedEntry(ds, i);
    var l := SortedEntry(ds, j);
    var firsts := Dedup(Depositors(ds));
    assert k < l ==> FirstIndex(Depositors(ds), firsts[k]) < FirstIndex(Depositors(ds), firsts[l]);
  }

  lemma SortedAddress(ds: seq<ChainDeposit>, a: string) returns (i: nat)
    requires a in Depositors(ds)
    ensures i < |Sort(Grouped(ds))| && Sort(Grouped(ds))[i].address == a
  {
    GroupedAddresses(ds);
    SortIsStable(Grouped(ds));
    var p :| 0 <= p < |Depositors(ds)| && Depositors(ds)[p] == a;
    var k :| 0 <= k < |Dedup(Depositors(ds))| && Dedup(Depositors(ds))[k] == a;
    assert Grouped(ds)[k] in Sort(Grouped(ds));
    i :| 0 <= i < |Sort(Grouped(ds))| && Sort(Grouped(ds))[i] == Grouped(ds)[k];
  }

  lemma RankingIsLeaderboard(poolId: int, denom: string, ds: seq<ChainDeposit>)
    ensures IsLeaderboard(poolId, denom, ds, Ranking(poolId, denom, ds))
  {
    var rows := Ranking(poolId, denom, ds);
    forall i | 0 <= i < |rows|
      ensures RowIsRight(poolId, denom, ds, rows, i)
    {
      var k := SortedEntry(ds, i);
    }
    forall i, j | 0 <= i < j < |rows|
      ensures RanksAhead(ds, rows[i], rows[j])
    {
      SortedPair(ds, i, j);
    }
    forall a | a in Depositors(ds)
      ensures exists i :: 0 <= i < |rows| && rows[i].address == a
    {
      var i := SortedAddress(ds, a);
      assert rows[i].address == a;
    }
  }

  // ---- the table ----

  type Table = map<string, Row>

  ghost predicate WellKeyed(table: Table) {
    forall k :: k in table ==> k == RowId(table[k].poolId, table[k].address)
  }

  function SaveRows(table: Table, rows: seq<Row>): Table {
    if rows == [] then table else SaveRows(table, rows[..|rows| - 1])[rows[|rows| - 1].id := rows[|rows| - 1]]
  }

  /** Rows of one pool, each under its own identifier, no two alike. */
  ghost predicate PoolRows(poolId: int, rows: seq<Row>) {
    && (forall i :: 0 <= i < |rows| ==> rows[i].poolId == poolId && rows[i].id == RowId(poolId, rows[i].address))
    && (forall i, j :: 0 <= i < j < |rows| ==> rows[i].address != rows[j].address)
  }

  /** The rows of the pool in the table are exactly these. */
  ghost predicate Shows(table: Table, poolId: int, rows: seq<Row>) {
    && (forall i :: 0 <= i < |rows| ==> rows[i].id in table && table[rows[i].id] == rows[i])
    && (forall k :: k in table && table[k].poolId == poolId ==> table[k] in rows)
  }

  ghost predicate SameElsewhere(table: Table, other: Table, poolId: int) {
    && (forall k :: k in table && table[k].poolId != poolId ==> k in other && other[k] == table[k])
    && (forall k :: k in other && other[k].poolId != poolId ==> k in table && table[k] == other[k])
  }

  lemma RankingRows(poolId: int, denom: string, ds: seq<ChainDeposit>)
    ensures PoolRows(poolId, Ranking(poolId, denom, ds))
  {
    var rows := Ranking(poolId, denom, ds);
    RankingIsLeaderboard(poolId, denom, ds);
    forall i, j | 0 <= i < j < |rows|
      ensures rows[i].address != rows[j].address
    {
      assert RanksAhead(ds, rows[i], rows[j]);
    }
    forall i | 0 <= i < |rows|
      ensures rows[i].poolId == poolId && rows[i].id == RowId(poolId, rows[i].address)
    {
      assert RowIsRight(poolId, denom, ds, rows, i);
    }
  }

  lemma RowIsNew(table: Table, poolId: int, rows: seq<Row>)
    requires rows != [] && PoolRows(poolId, rows) && WellKeyed(table) && Shows(table, poolId, rows[..|rows| - 1])
    ensures rows[|rows| - 1].id !in table
  {
    var n := |rows| - 1;
    var id := rows[n].id;
    if id in table {
      RowIdInjective(table[id].poolId, table[id].address, poolId, rows[n].address);
    }
  }

  lemma SaveRow(table: Table, poolId: int, rows: seq<Row>)
    requires rows != [] && PoolRows(poolId, rows) && WellKeyed(table) && Shows(table, poolId, rows[..|rows| - 1])
    ensures var row := rows[|rows| - 1];
            && WellKeyed(table[row.id := row]) && Shows(table[row.id := row], poolId, rows)
            && SameElsewhere(table, table[row.id := row], poolId)
  {
    var n := |rows| - 1;
    var row := rows[n];
    var u := table[row.id := row];
    RowIsNew(table, poolId, rows);
    forall i | 0 <= i < |rows|
      ensures rows[i].id in u && u[rows[i].id] == rows[i]
    {
      if i < n { assert rows[..n][i] == rows[i]; }
    }
    forall k | k in u && u[k].poolId == poolId
      ensures u[k] in rows
    {
      if k != row.id { assert table[k] in rows[..n]; }
    }
  }

  lemma {:induction false} SaveRowsShows(table: Table, poolId: int, rows: seq<Row>)
    requires WellKeyed(table) && PoolRows(poolId, rows) && Shows(table, poolId, [])
    ensures WellKeyed(SaveRows(table, rows)) && Shows(SaveRows(table, rows), poolId, rows)
    ensures SameElsewhere(table, SaveRows(table, rows), poolId)
  {
    if rows != [] {
      var before := rows[..|rows| - 1];
      SaveRowsShows(table, poolId, before);
      SaveRow(SaveRows(table, before), poolId, rows);
    }
  }

  /** Saving the new rows of a pool over a table from which its old ones were deleted puts exactly the new
      leaderboard there and leaves the other pools alone. */
  lemma SyncedShows(table: Table, deleted: Table, poolId: int, denom: string, ds: seq<ChainDeposit>)
    requires WellKeyed(table) && Shows(deleted, poolId, []) && SameElsewhere(table, deleted, poolId)
    ensures WellKeyed(deleted)
    ensures var u := SaveRows(deleted, Ranking(poolId, denom, ds));
            && WellKeyed(u) && Shows(u, poolId, Ranking(poolId, denom, ds)) && SameElsewhere(table, u, poolId)
  {
    forall k | k in deleted
      ensures deleted[k].poolId != poolId && k in table && table[k] == deleted[k]
    {
    }
    RankingRows(poolId, denom, ds);
    SaveRowsShows(deleted, poolId, Ranking(poolId, denom, ds));
  }

  // ---- the job ----

  /** The deposits of a pool come in pages. */
  datatype Pool = Pool(id: int, denom: string, pages: seq<seq<ChainDeposit>>)

  /** Where an interrupted run stops. */
  datatype Stop = Nowhere | BeforeDelete | BeforeSave

  class DepositorService {
    var rows: Table

    constructor ()
      ensures rows == map[]
    {
      rows := map[];
    }

    /** Afterwards the pool has no rows, and the other pools have theirs. */
    method DeleteByPoolId(poolId: int)
      modifies this
      ensures Shows(rows, poolId, []) && SameElsewhere(old(rows), rows, poolId)
    {
      rows := map k | k in rows && rows[k].poolId != poolId :: rows[k];
    }

    /** All rows or, if the write fails, none. */
    method SaveBulk(entities: seq<Row>)
      modifies this
      ensures rows == SaveRows(old(rows), entities)
    {
      for i := 0 to |entities|
        invariant rows == SaveRows(old(rows), entities[..i])
      {
        assert entities[..i + 1][..i] == entities[..i];
        rows := rows[entities[i].id := entities[i]];
      }
      assert entities[..|entities|] == entities;
    }
  }

  method CollectDeposits(pages: seq<seq<ChainDeposit>>) returns (all: seq<ChainDeposit>)
    ensures all == Concat(pages)
  {
    all := [];
    for p := 0 to |pages|
      invariant all == Concat(pages[..p])
    {
      assert pages[..p + 1][..p] == pages[..p];
      all := all + pages[p];
    }
    assert pages[..|pages|] == pages;
  }

  /** The pool shows the leaderboard of its deposits: of the list that is cut into its pages. */
  ghost predicate UpToDate(table: Table, pool: Pool) {
    forall ds :: CutInto(ds, pool.pages) ==> Shows(table, pool.id, Ranking(pool.id, pool.denom, ds))
  }

  lemma UpToDateIff(table: Table, pool: Pool)
    ensures UpToDate(table, pool) <==> Shows(table, pool.id, Ranking(pool.id, pool.denom, Concat(pool.pages)))
  {
    forall ds
      ensures CutInto(ds, pool.pages) <==> ds == Concat(pool.pages)
    {
      CutIffConcat(ds, pool.pages);
    }
  }

  /** So the way the deposits are cut into pages does not matter: a pool that is up to date with some list
      shows the ranking of that list, whatever the pages. */
  lemma PagingDoesNotMatter(table: Table, pool: Pool, other: Pool, ds: seq<ChainDeposit>)
    requires CutInto(ds, pool.pages) && CutInto(ds, other.pages)
    requires pool.id == other.id && pool.denom == other.denom
    ensures UpToDate(table, pool) <==> UpToDate(table, other)
    ensures UpToDate(table, pool) <==> Shows(table, pool.id, Ranking(pool.id, pool.denom, ds))
  {
    UpToDateIff(table, pool);
    UpToDateIff(table, other);
    CutIffConcat(ds, pool.pages);
    CutIffConcat(ds, other.pages);
  }

  /** Syncs one pool. Wherever the run stops, the pool shows its old leaderboard, nothing, or the new
      one, and the other pools are untouched. */
  method SyncPool(service: DepositorService, pool: Pool, stop: Stop)
    requires WellKeyed(service.rows)
    modifies service
    ensures WellKeyed(service.rows) && SameElsewhere(old(service.rows), service.rows, pool.id)
    ensures stop == BeforeDelete ==> service.rows == old(service.rows)
    ensures stop == BeforeSave ==> Shows(service.rows, pool.id, [])
    ensures stop == Nowhere ==> UpToDate(service.rows, pool)
  {
    var all := CollectDeposits(pool.pages);
    var aggregated := GroupAndSumDeposits(all);
    var sorted := Sort(aggregated);
    var formatted := RowsOf(pool.id, pool.denom, sorted);
    if stop == BeforeDelete {
      return;
    }
    service.DeleteByPoolId(pool.id);
    SyncedShows(old(service.rows), service.rows, pool.id, pool.denom, all);
    if stop == BeforeSave {
      return;
    }
    service.SaveBulk(formatted);
    UpToDateIff(service.rows, pool);
  }

  lemma StaysUpToDate(table: Table, other: Table, synced: int, pool: Pool)
    requires SameElsewhere(table, other, synced) && pool.id != synced && UpToDate(table, pool)
    ensures UpToDate(other, pool)
  {
    RankingRows(pool.id, pool.denom, Concat(pool.pages));
    UpToDateIff(table, pool);
    UpToDateIff(other, pool);
  }

  ghost predicate Listed(pools: seq<Pool>, poolId: int) {
    exists i :: 0 <= i < |pools| && pools[i].id == poolId
  }

  /** Pools that are not listed show what they showed, no row more or less. */
  ghost predicate UnlistedKept(table: Table, other: Table, pools: seq<Pool>) {
    && (forall k :: k in table && !Listed(pools, table[k].poolId) ==> k in other && other[k] == table[k])
    && (forall k :: k in other && !Listed(pools, other[k].poolId) ==> k in table && table[k] == other[k])
  }

  lemma ListedGrows(pools: seq<Pool>, n: nat, poolId: int)
    requires n < |pools|
    ensures Listed(pools[..n + 1], poolId) <==> Listed(pools[..n], poolId) || poolId == pools[n].id
  {
    var longer, shorter := pools[..n + 1], pools[..n];
    assert forall i :: 0 <= i < n ==> shorter[i] == longer[i] == pools[i];
    assert longer[n] == pools[n];
    if Listed(shorter, poolId) {
      var i :| 0 <= i < n && shorter[i].id == poolId;
      assert longer[i].id == poolId;
    }
  }

  lemma OneMorePool(table: Table, mid: Table, other: Table, pools: seq<Pool>, n: nat)
    requires n < |pools| && UnlistedKept(table, mid, pools[..n]) && SameElsewhere(mid, other, pools[n].id)
    ensures UnlistedKept(table, other, pools[..n + 1])
  {
    forall k | k in table && !Listed(pools[..n + 1], table[k].poolId)
      ensures k in other && other[k] == table[k]
    {
      ListedGrows(pools, n, table[k].poolId);
    }
    forall k | k in other && !Listed(pools[..n + 1], other[k].poolId)
      ensures k in table && table[k] == other[k]
    {
      ListedGrows(pools, n, other[k].poolId);
    }
  }

  /** The first n pools are up to date, pools that are not among them are as before. */
  ghost predicate SyncedSoFar(table: Table, other: Table, pools: seq<Pool>, n: nat)
    requires n <= |pools|
  {
    && WellKeyed(other)
    && (forall i :: 0 <= i < n ==> UpToDate(other, pools[i]))
    && UnlistedKept(table, other, pools[..n])
  }

  lemma OthersStayUpToDate(mid: Table, other: Table, pools: seq<Pool>, n: nat)
    requires n < |pools| && forall i :: 0 <= i < n ==> pools[i].id != pools[n].id
    requires SameElsewhere(mid, other, pools[n].id) && forall i :: 0 <= i < n ==> UpToDate(mid, pools[i])
    ensures forall i :: 0 <= i < n ==> UpToDate(other, pools[i])
  {
    forall i | 0 <= i < n
      ensures UpToDate(other, pools[i])
    {
      StaysUpToDate(mid, other, pools[n].id, pools[i]);
    }
  }

  lemma SyncedOneMore(table: Table, mid: Table, other: Table, pools: seq<Pool>, n: nat)
    requires n < |pools| && forall i :: 0 <= i < n ==> pools[i].id != pools[n].id
    requires SyncedSoFar(table, mid, pools, n)
    requires WellKeyed(other) && SameElsewhere(mid, other, pools[n].id) && UpToDate(other, pools[n])
    ensures SyncedSoFar(table, other, pools, n + 1)
  {
    OneMorePool(table, mid, other, pools, n);
    OthersStayUpToDate(mid, other, pools, n);
  }

  /** The pool has the same rows in both tables. */
  ghost predicate SamePool(table: Table, other: Table, poolId: int) {
    && (forall k :: k in table && table[k].poolId == poolId ==> k in other && other[k] == table[k])
    && (forall k :: k in other && other[k].poolId == poolId ==> k in table && table[k] == other[k])
  }

  /** What a run leaves that stopped within the n-th pool: the pools before it are up to date, it shows
      its old rows, none, or the new ones, and all others, listed or not, are as before. */
  ghost predicate StoppedWithin(table: Table, other: Table, pools: seq<Pool>, n: nat, stop: Stop)
    requires n < |pools|
  {
    && WellKeyed(other)
    && (forall i :: 0 <= i < n ==> UpToDate(other, pools[i]))
    && UnlistedKept(table, other, pools[..n + 1])
    && (stop == BeforeDelete ==> SamePool(table, other, pools[n].id))
    && (stop == BeforeSave ==> Shows(other, pools[n].id, []))
    && (stop == Nowhere ==> UpToDate(other, pools[n]))
  }

  lemma NotYetListed(table: Table, mid: Table, pools: seq<Pool>, n: nat)
    requires n < |pools| && UnlistedKept(table, mid, pools[..n])
    requires forall i :: 0 <= i < n ==> pools[i].id != pools[n].id
    ensures SamePool(table, mid, pools[n].id)
  {
    assert forall i :: 0 <= i < n ==> pools[..n][i] == pools[i];
    assert !Listed(pools[..n], pools[n].id);
  }

  /** A run over the listed pools, which may stop within the last of those it gets to. A run over all of
      them leaves every listed pool up to date and all other pools as before. */
  method DepositorsSync(service: DepositorService, pools: seq<Pool>, last: nat, stop: Stop)
    requires WellKeyed(service.rows)
    requires forall i, j :: 0 <= i < j < |pools| ==> pools[i].id != pools[j].id
    modifies service
    ensures last >= |pools| ==> SyncedSoFar(old(service.rows), service.rows, pools, |pools|)
    ensures last < |pools| ==> StoppedWithin(old(service.rows), service.rows, pools, last, stop)
  {
    for n := 0 to |pools|
      invariant n <= last
      invariant SyncedSoFar(old(service.rows), service.rows, pools, n)
    {
      ghost var before := service.rows;
      if n == last {
        SyncPool(service, pools[n], stop);
        OneMorePool(old(service.rows), before, service.rows, pools, n);
        OthersStayUpToDate(before, service.rows, pools, n);
        NotYetListed(old(service.rows), before, pools, n);
        return;
      }
      SyncPool(service, pools[n], Nowhere);
      SyncedOneMore(old(service.rows), before, service.rows, pools, n);
    }
  }

  // ---- neighbours on the leaderboard ----

  ghost predicate AtRank(table: Table, poolId: int, rank: int, row: Row) {
    exists k :: k in table && table[k] == row && row.poolId == poolId && row.rank == rank
  }

  /** What a lookup by pool and rank may return. */
  ghost predicate Found(table: Table, poolId: int, rank: int, result: Option<Row>) {
    if result.Some? then AtRank(table, poolId, rank, result.value) else forall row :: !AtRank(table, poolId, rank, row)
  }

  /** On a pool that shows a leaderboard, the neighbours of a depositor are the rows next to it, and
      there are none beyond the ends. */
  lemma Neighbours(table: Table, poolId: int, denom: string, ds: seq<ChainDeposit>, i: int, before: Option<Row>,
                   after: Option<Row>)
    requires Shows(table, poolId, Ranking(poolId, denom, ds)) && 0 <= i < |Ranking(poolId, denom, ds)|
    requires Found(table, poolId, Ranking(poolId, denom, ds)[i].rank - 1, before)
    requires Found(table, poolId, Ranking(poolId, denom, ds)[i].rank + 1, after)
    ensures before == if i > 0 then Some(Ranking(poolId, denom, ds)[i - 1]) else None
    ensures after == if i + 1 < |Ranking(poolId, denom, ds)| then Some(Ranking(poolId, denom, ds)[i + 1]) else None
  {
    var rows := Ranking(poolId, denom, ds);
    LookupByRank(table, poolId, denom, ds, i, before);
    LookupByRank(table, poolId, denom, ds, i + 2, after);
  }

  lemma LookupByRank(table: Table, poolId: int, denom: string, ds: seq<ChainDeposit>, rank: int, result: Option<Row>)
    requires Shows(table, poolId, Ranking(poolId, denom, ds)) && Found(table, poolId, rank, result)
    ensures result == if 1 <= rank <= |Ranking(poolId, denom, ds)| then Some(Ranking(poolId, denom, ds)[rank - 1])
                      else None
  {
    var rows := Ranking(poolId, denom, ds);
    if result.Some? {
      assert result.value in rows;
    } else if 1 <= rank <= |rows| {
      assert AtRank(table, poolId, rank, rows[rank - 1]);
    }
  }
}
