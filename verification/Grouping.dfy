/** Deposits of a pool grouped by depositor, sponsors left out. */
module Grouping {
  import opened Occurrences

  datatype ChainDeposit = ChainDeposit(depositor: string, amount: int, isSponsor: bool, createdAtHeight: int)

  datatype Entry = Entry(address: string, amount: int)

  /** The depositors that are not sponsors of their deposit, one for each such deposit. */
  function Depositors(ds: seq<ChainDeposit>): seq<string> {
    if ds == [] then []
    else Depositors(ds[..|ds| - 1]) + if ds[|ds| - 1].isSponsor then [] else [ds[|ds| - 1].depositor]
  }

  function Share(d: ChainDeposit, address: string): int {
    if d.depositor == address && !d.isSponsor then d.amount else 0
  }

  /** What an address deposited without sponsoring. */
  function Total(ds: seq<ChainDeposit>, address: string): int {
    if ds == [] then 0 else Total(ds[..|ds| - 1], address) + Share(ds[|ds| - 1], address)
  }

  function GrandTotal(ds: seq<ChainDeposit>): int {
    if ds == [] then 0
    else GrandTotal(ds[..|ds| - 1]) + if ds[|ds| - 1].isSponsor then 0 else ds[|ds| - 1].amount
  }

  function SumAmounts(es: seq<Entry>): int {
    if es == [] then 0 else SumAmounts(es[..|es| - 1]) + es[|es| - 1].amount
  }

  function EntriesFor(ds: seq<ChainDeposit>, addresses: seq<string>): (es: seq<Entry>)
    ensures |es| == |addresses|
    ensures forall i :: 0 <= i < |es| ==> es[i] == Entry(addresses[i], Total(ds, addresses[i]))
  {
    seq(|addresses|, i requires 0 <= i < |addresses| => Entry(addresses[i], Total(ds, addresses[i])))
  }

  /** One entry for each depositor, in the order of first appearance, with what the depositor has. */
  function Grouped(ds: seq<ChainDeposit>): seq<Entry> {
    EntriesFor(ds, Dedup(Depositors(ds)))
  }

  lemma OneMore(ds: seq<ChainDeposit>, n: nat)
    requires n < |ds|
    ensures Dedup(Depositors(ds[..n + 1]))
            == if ds[n].isSponsor then Dedup(Depositors(ds[..n]))
               else PushNew(Dedup(Depositors(ds[..n])), ds[n].depositor)
    ensures forall a :: Total(ds[..n + 1], a) == Total(ds[..n], a) + Share(ds[n], a)
  {
    assert ds[..n + 1][..n] == ds[..n];
    var before := Depositors(ds[..n]);
    assert (before + [ds[n].depositor])[..|before|] == before;
    assert Depositors(ds[..n + 1]) == if ds[n].isSponsor then before else before + [ds[n].depositor];
  }

  /** A dictionary whose keys keep the order in which they were first set. */
  datatype Dictionary = Dictionary(order: seq<string>, sums: map<string, int>)

  function AddDeposit(dict: Dictionary, d: ChainDeposit): Dictionary {
    if d.isSponsor then dict
    else if d.depositor !in dict.sums then Dictionary(dict.order + [d.depositor], dict.sums[d.depositor := d.amount])
    else dict.(sums := dict.sums[d.depositor := dict.sums[d.depositor] + d.amount])
  }

  function DictionaryOf(ds: seq<ChainDeposit>): Dictionary {
    if ds == [] then Dictionary([], map[]) else AddDeposit(DictionaryOf(ds[..|ds| - 1]), ds[|ds| - 1])
  }

  ghost predicate SameKeys(dict: Dictionary) {
    forall a :: a in dict.sums <==> a in dict.order
  }

  lemma AddDepositKeys(dict: Dictionary, d: ChainDeposit)
    requires SameKeys(dict)
    ensures SameKeys(AddDeposit(dict, d))
    ensures AddDeposit(dict, d).order == if d.isSponsor then dict.order else PushNew(dict.order, d.depositor)
  {
  }

  lemma {:induction false} DictionaryKeys(ds: seq<ChainDeposit>)
    ensures SameKeys(DictionaryOf(ds)) && DictionaryOf(ds).order == Dedup(Depositors(ds))
  {
    if ds != [] {
      var n := |ds| - 1;
      DictionaryKeys(ds[..n]);
      AddDepositKeys(DictionaryOf(ds[..n]), ds[n]);
      OneMore(ds, n);
      assert ds[..n + 1] == ds;
    }
  }

  lemma {:induction false} DictionarySum(ds: seq<ChainDeposit>, a: string)
    ensures (if a in DictionaryOf(ds).sums then DictionaryOf(ds).sums[a] else 0) == Total(ds, a)
  {
    if ds != [] {
      DictionarySum(ds[..|ds| - 1], a);
    }
  }

  /** The values of the dictionary, in key order. */
  function Values(dict: Dictionary): seq<Entry> {
    seq(|dict.order|, i requires 0 <= i < |dict.order| =>
      Entry(dict.order[i], if dict.order[i] in dict.sums then dict.sums[dict.order[i]] else 0))
  }

  lemma ValuesAreGrouped(ds: seq<ChainDeposit>)
    ensures Values(DictionaryOf(ds)) == Grouped(ds)
  {
    DictionaryKeys(ds);
    var values, grouped := Values(DictionaryOf(ds)), Grouped(ds);
    forall i | 0 <= i < |grouped|
      ensures values[i] == grouped[i]
    {
      DictionarySum(ds, Dedup(Depositors(ds))[i]);
    }
  }

  /** Fills a dictionary in one pass. */
  method GroupAndSumDeposits(ds: seq<ChainDeposit>) returns (entries: seq<Entry>)
    ensures entries == Grouped(ds)
  {
    var dict := Dictionary([], map[]);
    for n := 0 to |ds|
      invariant dict == DictionaryOf(ds[..n])
    {
      var d := ds[n];
      assert ds[..n + 1][..n] == ds[..n];
      if d.depositor !in dict.sums {
        if d.isSponsor {
          continue;
        }
        dict := Dictionary(dict.order + [d.depositor], dict.sums[d.depositor := d.amount]);
      } else if !d.isSponsor {
        dict := dict.(sums := dict.sums[d.depositor := dict.sums[d.depositor] + d.amount]);
      }
    }
    assert ds[..|ds|] == ds;
    ValuesAreGrouped(ds);
    entries := Values(dict);
  }

  /** No address twice, and every depositor is there. */
  lemma GroupedAddresses(ds: seq<ChainDeposit>)
    ensures FirstOccurrences(Depositors(ds), Dedup(Depositors(ds)))
    ensures NoRepeat(Grouped(ds))
    ensures forall i, j :: 0 <= i < j < |Grouped(ds)| ==> Grouped(ds)[i].address != Grouped(ds)[j].address
  {
    DedupIsFirstOccurrences(Depositors(ds));
  }

  lemma {:induction false} NoShareNoTotal(ds: seq<ChainDeposit>, a: string)
    requires a !in Depositors(ds)
    ensures Total(ds, a) == 0
  {
    if ds != [] {
      NoShareNoTotal(ds[..|ds| - 1], a);
    }
  }

  lemma {:induction false} RaiseAt(ds: seq<ChainDeposit>, d: ChainDeposit, addresses: seq<string>)
    requires NoRepeat(addresses) && !d.isSponsor
    ensures SumAmounts(EntriesFor(ds + [d], addresses))
            == SumAmounts(EntriesFor(ds, addresses)) + if d.depositor in addresses then d.amount else 0
  {
    assert (ds + [d])[..|ds|] == ds;
    if addresses != [] {
      var n := |addresses| - 1;
      RaiseAt(ds, d, addresses[..n]);
      EntriesLast(ds, addresses);
      EntriesLast(ds + [d], addresses);
      assert Total(ds + [d], addresses[n]) == Total(ds, addresses[n]) + Share(d, addresses[n]);
      if addresses[n] == d.depositor {
        assert d.depositor !in addresses[..n];
      }
    }
  }

  lemma EntriesLast(ds: seq<ChainDeposit>, addresses: seq<string>)
    requires addresses != []
    ensures SumAmounts(EntriesFor(ds, addresses))
            == SumAmounts(EntriesFor(ds, addresses[..|addresses| - 1])) + Total(ds, addresses[|addresses| - 1])
  {
    var n := |addresses| - 1;
    assert EntriesFor(ds, addresses)[..n] == EntriesFor(ds, addresses[..n]);
  }

  lemma SponsorChangesNothing(ds: seq<ChainDeposit>, d: ChainDeposit)
    requires d.isSponsor
    ensures Grouped(ds + [d]) == Grouped(ds) && GrandTotal(ds + [d]) == GrandTotal(ds)
  {
    assert (ds + [d])[..|ds|] == ds;
    assert Depositors(ds + [d]) == Depositors(ds);
    assert forall a :: Total(ds + [d], a) == Total(ds, a);
  }

  lemma GroupedGrows(ds: seq<ChainDeposit>, d: ChainDeposit)
    requires !d.isSponsor
    ensures Grouped(ds + [d]) == EntriesFor(ds + [d], PushNew(Dedup(Depositors(ds)), d.depositor))
  {
    assert (ds + [d])[..|ds|] == ds;
    assert (ds + [d])[..|ds| + 1] == ds + [d];
    OneMore(ds + [d], |ds|);
  }

  lemma NewDepositorTotal(ds: seq<ChainDeposit>, d: ChainDeposit)
    requires !d.isSponsor && d.depositor !in Depositors(ds)
    ensures Total(ds + [d], d.depositor) == d.amount
  {
    assert (ds + [d])[..|ds|] == ds;
    NoShareNoTotal(ds, d.depositor);
  }

  lemma OwnDepositRaises(ds: seq<ChainDeposit>, d: ChainDeposit)
    requires !d.isSponsor
    ensures SumAmounts(Grouped(ds + [d])) == SumAmounts(Grouped(ds)) + d.amount
  {
    var addresses := Dedup(Depositors(ds));
    DedupIsFirstOccurrences(Depositors(ds));
    RaiseAt(ds, d, addresses);
    GroupedGrows(ds, d);
    if d.depositor !in addresses {
      var longer := addresses + [d.depositor];
      assert longer[..|addresses|] == addresses;
      EntriesLast(ds + [d], longer);
      assert d.depositor !in Depositors(ds);
      NewDepositorTotal(ds, d);
    }
  }

  /** Grouping loses nothing: the amounts add up to all that was deposited without sponsoring. */
  lemma {:induction false} GroupingConserves(ds: seq<ChainDeposit>)
    ensures SumAmounts(Grouped(ds)) == GrandTotal(ds)
  {
    if ds != [] {
      var before, d := ds[..|ds| - 1], ds[|ds| - 1];
      assert before + [d] == ds;
      GroupingConserves(before);
      if d.isSponsor { SponsorChangesNothing(before, d); } else { OwnDepositRaises(before, d); }
    }
  }

  lemma {:induction false} TotalRemove(ds: seq<ChainDeposit>, i: nat, a: string)
    requires i < |ds|
    ensures Total(ds, a) == Total(ds[..i] + ds[i + 1..], a) + Share(ds[i], a)
  {
    var n := |ds| - 1;
    if i == n {
      assert ds[..i] + ds[i + 1..] == ds[..n];
    } else {
      TotalRemove(ds[..n], i, a);
      var rest := ds[..i] + ds[i + 1..];
      assert rest[..n - 1] == ds[..n][..i] + ds[..n][i + 1..] && rest[n - 1] == ds[n];
    }
  }

  lemma {:induction false} DepositorExists(ds: seq<ChainDeposit>, a: string)
    ensures a in Depositors(ds) <==> exists i :: 0 <= i < |ds| && ds[i].depositor == a && !ds[i].isSponsor
  {
    if ds != [] {
      var n := |ds| - 1;
      var before := ds[..n];
      DepositorExists(before, a);
      forall i | 0 <= i < n
        ensures before[i] == ds[i]
      {
      }
    }
  }

  /** The sums do not depend on the order of the deposits, however those of sponsors are mixed in. */
  lemma {:induction false} TotalsIgnoreOrder(ds: seq<ChainDeposit>, es: seq<ChainDeposit>, a: string)
    requires multiset(ds) == multiset(es)
    ensures Total(ds, a) == Total(es, a)
    decreases |ds|
  {
    if ds == [] {
      PermutationOfEmpty(es);
    } else {
      var i := PermutationTakeLast(ds, es);
      TotalRemove(es, i, a);
      TotalsIgnoreOrder(ds[..|ds| - 1], es[..i] + es[i + 1..], a);
    }
  }

  /** So two orders of the same deposits give the same addresses with the same sums. */
  lemma GroupingIgnoresOrder(ds: seq<ChainDeposit>, es: seq<ChainDeposit>)
    requires multiset(ds) == multiset(es)
    ensures forall e :: e in Grouped(ds) <==> e in Grouped(es)
  {
    GroupingKeeps(ds, es);
    GroupingKeeps(es, ds);
  }

  lemma GroupingKeeps(ds: seq<ChainDeposit>, es: seq<ChainDeposit>)
    requires multiset(ds) == multiset(es)
    ensures forall e :: e in Grouped(ds) ==> e in Grouped(es)
  {
    forall e | e in Grouped(ds)
      ensures e in Grouped(es)
    {
      var a := e.address;
      DedupIsFirstOccurrences(Depositors(ds));
      DedupIsFirstOccurrences(Depositors(es));
      DepositorExists(ds, a);
      var i :| 0 <= i < |ds| && ds[i].depositor == a && !ds[i].isSponsor;
      var j := PermutationFind(ds, es, i);
      DepositorExists(es, a);
      TotalsIgnoreOrder(ds, es, a);
      var l :| 0 <= l < |Depositors(es)| && Depositors(es)[l] == a;
      var k :| 0 <= k < |Dedup(Depositors(es))| && Dedup(Depositors(es))[k] == a;
      assert Grouped(es)[k] == e;
    }
  }

  // ---- which deposits count ----

  /** The amounts of all deposits, sponsoring or not. */
  function SumDeposits(ds: seq<ChainDeposit>): int {
    if ds == [] then 0 else SumDeposits(ds[..|ds| - 1]) + ds[|ds| - 1].amount
  }

  lemma {:induction false} OnlySponsors(ds: seq<ChainDeposit>)
    requires forall i :: 0 <= i < |ds| ==> ds[i].isSponsor
    ensures Depositors(ds) == [] && Grouped(ds) == [] && GrandTotal(ds) == 0
  {
    if ds != [] {
      OnlySponsors(ds[..|ds| - 1]);
    }
  }

  lemma {:induction false} NoSponsors(ds: seq<ChainDeposit>)
    requires forall i :: 0 <= i < |ds| ==> !ds[i].isSponsor
    ensures GrandTotal(ds) == SumDeposits(ds)
  {
    if ds != [] {
      NoSponsors(ds[..|ds| - 1]);
    }
  }

  lemma {:induction false} SponsorWithin(before: seq<ChainDeposit>, d: ChainDeposit, after: seq<ChainDeposit>)
    requires d.isSponsor
    ensures Depositors(before + [d] + after) == Depositors(before + after)
    ensures GrandTotal(before + [d] + after) == GrandTotal(before + after)
    ensures forall a :: Total(before + [d] + after, a) == Total(before + after, a)
  {
    if after == [] {
      assert before + [d] + after == before + [d] && before + after == before;
      assert (before + [d])[..|before|] == before;
    } else {
      var n := |after| - 1;
      SponsorWithin(before, d, after[..n]);
      assert (before + [d] + after)[..|before| + 1 + n] == before + [d] + after[..n];
      assert (before + after)[..|before| + n] == before + after[..n];
    }
  }

  /** A deposit that sponsors never counts, wherever it stands. */
  lemma SponsorsNeverCount(before: seq<ChainDeposit>, d: ChainDeposit, after: seq<ChainDeposit>)
    requires d.isSponsor
    ensures Grouped(before + [d] + after) == Grouped(before + after)
  {
    SponsorWithin(before, d, after);
  }

  /** Where nobody sponsors, every amount counts. */
  lemma EveryAmountCounts(ds: seq<ChainDeposit>)
    requires forall i :: 0 <= i < |ds| ==> !ds[i].isSponsor
    ensures SumAmounts(Grouped(ds)) == SumDeposits(ds)
  {
    NoSponsors(ds);
    GroupingConserves(ds);
  }

  lemma {:induction false} SumOfOne(ds: seq<ChainDeposit>, a: string)
    requires forall i :: 0 <= i < |ds| ==> !ds[i].isSponsor && ds[i].depositor == a
    ensures Total(ds, a) == SumDeposits(ds)
  {
    if ds != [] {
      SumOfOne(ds[..|ds| - 1], a);
    }
  }

  lemma {:induction false} DepositorsOfOne(ds: seq<ChainDeposit>, a: string)
    requires ds != [] && forall i :: 0 <= i < |ds| ==> !ds[i].isSponsor && ds[i].depositor == a
    ensures Dedup(Depositors(ds)) == [a]
  {
    var before := ds[..|ds| - 1];
    var values := Depositors(before);
    assert Depositors(ds) == values + [a];
    assert (values + [a])[..|values|] == values;
    if before != [] {
      DepositorsOfOne(before, a);
    }
  }

  /** The own deposits of a single depositor make one entry with all of it. */
  lemma OneDepositor(ds: seq<ChainDeposit>, a: string)
    requires ds != [] && forall i :: 0 <= i < |ds| ==> !ds[i].isSponsor && ds[i].depositor == a
    ensures Grouped(ds) == [Entry(a, SumDeposits(ds))]
  {
    DepositorsOfOne(ds, a);
    SumOfOne(ds, a);
  }
}
