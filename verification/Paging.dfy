/** Lists that are handed out in pages. */
module Paging {

  function Concat<T>(pages: seq<seq<T>>): seq<T> {
    if pages == [] then [] else Concat(pages[..|pages| - 1]) + pages[|pages| - 1]
  }

  lemma ConcatOne<T>(page: seq<T>)
    ensures Concat([page]) == page
  {
    assert [page][..0] == [];
  }

  lemma {:induction false} ConcatAppend<T>(pages: seq<seq<T>>, more: seq<seq<T>>)
    ensures Concat(pages + more) == Concat(pages) + Concat(more)
  {
    if more == [] {
      assert pages + more == pages;
    } else {
      var n := |more| - 1;
      assert (pages + more)[..|pages| + n] == pages + more[..n];
      ConcatAppend(pages, more[..n]);
    }
  }

  /** The list is cut into these pages: the first page is its beginning, the others are cut from the rest. */
  ghost predicate CutInto<T(!new)>(list: seq<T>, pages: seq<seq<T>>)
    decreases |pages|
  {
    if pages == [] then list == []
    else pages[0] <= list && CutInto(list[|pages[0]|..], pages[1..])
  }

  /** However a list is cut into pages, reading them one after the other gives it back, and nothing else. */
  lemma {:induction false} CutIffConcat<T(!new)>(list: seq<T>, pages: seq<seq<T>>)
    ensures CutInto(list, pages) <==> list == Concat(pages)
    decreases |pages|
  {
    if pages != [] {
      var first, rest := pages[0], pages[1..];
      assert pages == [first] + rest;
      ConcatAppend([first], rest);
      ConcatOne(first);
      if first <= list {
        CutIffConcat(list[|first|..], rest);
        assert list == first + list[|first|..];
      }
    }
  }

  lemma {:induction false} OneMorePage<T>(pages: seq<seq<T>>, p: nat)
    requires p < |pages|
    ensures Concat(pages[..p + 1]) == Concat(pages[..p]) + pages[p]
    ensures |Concat(pages[..p + 1])| <= |Concat(pages)|
    decreases |pages|
  {
    assert pages[..p + 1][..p] == pages[..p];
    if p + 1 == |pages| {
      assert pages[..p + 1] == pages;
    } else {
      var init := pages[..|pages| - 1];
      OneMorePage(init, p);
      assert init[..p + 1] == pages[..p + 1];
    }
  }
}
