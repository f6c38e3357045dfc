/** Lists that hold each value once, in the order in which the values first appeared. */
module Occurrences {

  function FirstIndex<T(==)>(values: seq<T>, a: T): (i: nat)
    requires a in values
    ensures i < |values| && values[i] == a && forall j :: 0 <= j < i ==> values[j] != a
  {
    if a in values[..|values| - 1] then FirstIndex(values[..|values| - 1], a) else |values| - 1
  }

  ghost predicate NoRepeat<T>(values: seq<T>) {
    forall i, j :: 0 <= i < j < |values| ==> values[i] != values[j]
  }

  ghost predicate SameElements<T>(values: seq<T>, r: seq<T>) {
    (forall i :: 0 <= i < |r| ==> r[i] in values) && (forall i :: 0 <= i < |values| ==> values[i] in r)
  }

  /** Everything in values once, in the order of first appearance. */
  ghost predicate FirstOccurrences<T>(values: seq<T>, r: seq<T>) {
    && NoRepeat(r)
    && SameElements(values, r)
    && (forall i, j :: 0 <= i < j < |r| ==> FirstIndex(values, r[i]) < FirstIndex(values, r[j]))
  }

  function PushNew<T(==)>(r: seq<T>, a: T): seq<T> {
    if a in r then r else r + [a]
  }

  lemma AlreadyFirst<T>(values: seq<T>)
    requires NoRepeat(values)
    ensures FirstOccurrences(values, values)
  {
    forall i | 0 <= i < |values|
      ensures FirstIndex(values, values[i]) == i
    {
    }
  }

  lemma FirstIndexGrows<T>(values: seq<T>, a: T, x: T)
    requires x in values || x == a
    ensures x in values + [a]
    ensures FirstIndex(values + [a], x) == if x in values then FirstIndex(values, x) else |values|
  {
    var longer := values + [a];
    assert longer[..|values|] == values && longer[|values|] == a;
  }

  lemma FirstOccurrencesPush<T>(values: seq<T>, r: seq<T>, a: T)
    requires FirstOccurrences(values, r)
    ensures FirstOccurrences(values + [a], PushNew(r, a))
  {
    var longer, u := values + [a], PushNew(r, a);
    assert a in values <==> a in r;
    forall i | 0 <= i < |r|
      ensures r[i] in longer && FirstIndex(longer, r[i]) == FirstIndex(values, r[i]) < |values|
    {
      FirstIndexGrows(values, a, r[i]);
    }
    FirstIndexGrows(values, a, a);
    forall i | 0 <= i < |longer|
      ensures longer[i] in u
    {
      if i < |values| { assert values[i] in r; }
    }
  }

  function Dedup<T(==)>(values: seq<T>): seq<T> {
    if values == [] then [] else PushNew(Dedup(values[..|values| - 1]), values[|values| - 1])
  }

  lemma {:induction false} DedupIsFirstOccurrences<T>(values: seq<T>)
    ensures FirstOccurrences(values, Dedup(values))
  {
    if values != [] {
      var n := |values| - 1;
      DedupIsFirstOccurrences(values[..n]);
      FirstOccurrencesPush(values[..n], Dedup(values[..n]), values[n]);
      assert values[..n] + [values[n]] == values;
    }
  }

  lemma KnownValueChangesNothing<T>(before: seq<T>, a: T, r: seq<T>)
    requires a in before && FirstOccurrences(before + [a], r)
    ensures FirstOccurrences(before, r)
  {
    var values := before + [a];
    forall i | 0 <= i < |r|
      ensures r[i] in before && FirstIndex(values, r[i]) == FirstIndex(before, r[i])
    {
      assert r[i] in values;
      FirstIndexGrows(before, a, r[i]);
    }
    forall i | 0 <= i < |before|
      ensures before[i] in r
    {
      assert values[i] in r;
    }
  }

  /** There is only one such list. */
  lemma {:induction false} FirstOccurrencesUnique<T>(values: seq<T>, r: seq<T>)
    requires FirstOccurrences(values, r)
    ensures r == Dedup(values)
  {
    if values == [] {
      assert r == [];
    } else {
      var n := |values| - 1;
      var before, a := values[..n], values[n];
      assert before + [a] == values;
      DedupIsFirstOccurrences(before);
      if a in before {
        KnownValueChangesNothing(before, a, r);
        FirstOccurrencesUnique(before, r);
      } else {
        NewestIsLast(before, a, r);
        FirstOccurrencesUnique(before, r[..|r| - 1]);
      }
    }
  }

  lemma NewestIsLast<T>(before: seq<T>, a: T, r: seq<T>)
    requires a !in before && FirstOccurrences(before + [a], r)
    ensures r != [] && r[|r| - 1] == a && FirstOccurrences(before, r[..|r| - 1])
  {
    var values := before + [a];
    assert values[|before|] in r;
    var k :| 0 <= k < |r| && r[k] == a;
    FirstIndexGrows(before, a, a);
    var last := |r| - 1;
    assert r[last] in values;
    FirstIndexGrows(before, a, r[last]);
    assert k == last;
    var rest := r[..last];
    forall i | 0 <= i < last
      ensures rest[i] in before && FirstIndex(before, rest[i]) == FirstIndex(values, r[i])
    {
      assert r[i] in values;
      FirstIndexGrows(before, a, r[i]);
    }
    forall i | 0 <= i < |before|
      ensures before[i] in rest
    {
      assert values[i] in r;
      var j :| 0 <= j < |r| && r[j] == values[i];
      assert rest[j] == before[i];
    }
  }

  // ---- permutations ----

  lemma RemoveAt<T>(s: seq<T>, i: nat)
    requires i < |s|
    ensures multiset(s) == multiset(s[..i] + s[i + 1..]) + multiset{s[i]}
  {
    assert s == s[..i] + [s[i]] + s[i + 1..];
  }

  lemma PermutationOfEmpty<T>(t: seq<T>)
    requires multiset(t) == multiset{}
    ensures t == []
  {
    assert |multiset(t)| == |t|;
  }

  lemma PermutationFind<T>(s: seq<T>, t: seq<T>, i: int) returns (j: nat)
    requires multiset(s) == multiset(t) && 0 <= i < |s|
    ensures j < |t| && t[j] == s[i]
  {
    assert s[i] in multiset(s);
    assert s[i] in multiset(t);
    j :| 0 <= j < |t| && t[j] == s[i];
  }

  lemma CancelOne<T>(a: multiset<T>, b: multiset<T>, x: T)
    requires a + multiset{x} == b + multiset{x}
    ensures a == b
  {
    assert a == (a + multiset{x}) - multiset{x};
  }

  /** The last element of s taken out of both leaves permutations. */
  lemma PermutationTakeLast<T>(s: seq<T>, t: seq<T>) returns (j: nat)
    requires multiset(s) == multiset(t) && s != []
    ensures j < |t| && t[j] == s[|s| - 1]
    ensures multiset(s[..|s| - 1]) == multiset(t[..j] + t[j + 1..])
  {
    var n := |s| - 1;
    j := PermutationFind(s, t, n);
    RemoveAt(t, j);
    RemoveAt(s, n);
    assert s[..n] + s[n + 1..] == s[..n];
    CancelOne(multiset(s[..n]), multiset(t[..j] + t[j + 1..]), s[n]);
  }
}
