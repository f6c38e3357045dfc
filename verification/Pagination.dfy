/** Pages of a list: how a request is turned into a slice, and what the reply says about further
    pages. */
module Pagination {
  import opened Options
  import opened Paging

  datatype Request = Request(page: nat, limit: nat, skip: nat)

  /** Query parameters that are absent or empty are None; a default of 0 counts as absent. */
  function Intercept(page: Option<nat>, limit: Option<nat>, defaultTake: nat): Request {
    var p := if page.Some? then page.value else 0;
    var l := if limit.Some? then limit.value else if defaultTake > 0 then defaultTake else 5;
    Request(p, l, if p == 0 then 0 else p * l)
  }

  /** What a request asks for: the page it names, else the first; the limit it names, else the default of
      the controller, else 5; and the rows before the page are skipped. */
  lemma InterceptMeaning(page: Option<nat>, limit: Option<nat>, defaultTake: nat)
    ensures var r := Intercept(page, limit, defaultTake);
            && (page == Some(r.page) || (page == None && r.page == 0))
            && (limit.Some? ==> r.limit == limit.value)
            && (limit.None? && defaultTake > 0 ==> r.limit == defaultTake)
            && (limit.None? && defaultTake == 0 ==> r.limit == 5)
            && r.skip == r.page * r.limit
  {
  }

  /** A quotient of two counts, rounded up; dividing by zero is allowed. */
  datatype Quotient = NaN | Infinity | Whole(n: nat)

  function CeilDiv(total: nat, limit: nat): Quotient {
    if limit > 0 then Whole((total + limit - 1) / limit) else if total > 0 then Infinity else NaN
  }

  /** page < pages - 1 */
  predicate BeforeLast(page: nat, pages: Quotient) {
    match pages
    case NaN => false
    case Infinity => true
    case Whole(n) => page < n - 1
  }

  class DataResponseMetadata {
    var page: nat
    var limit: nat
    var pagesTotal: Quotient
    var itemsCount: nat
    var itemsTotal: nat
    var hasPreviousPage: bool
    var hasNextPage: bool

    /** For a positive limit there is a next page iff the page after this one starts inside the list;
        with a limit of zero a list that is not empty has a next page for ever. */
    constructor (page: nat, limit: nat, itemsCount: nat, itemsTotal: nat)
      ensures this.page == page && this.limit == limit && this.itemsCount == itemsCount && this.itemsTotal == itemsTotal
      ensures pagesTotal == CeilDiv(itemsTotal, limit)
      ensures hasPreviousPage <==> page > 0
      ensures hasNextPage == HasNext(itemsTotal, limit, page)
      ensures hasNextPage <==> if limit > 0 then (page + 1) * limit < itemsTotal else itemsTotal > 0
    {
      this.page, this.limit, this.itemsCount, this.itemsTotal := page, limit, itemsCount, itemsTotal;
      new;
      pagesTotal := CeilDiv(this.itemsTotal, this.limit);
      hasPreviousPage := this.page > 0;
      hasNextPage := BeforeLast(this.page, pagesTotal);
      if limit > 0 { HasNextMeaning(itemsTotal, limit, page); }
    }
  }

  predicate HasNext(total: nat, limit: nat, page: nat) {
    BeforeLast(page, CeilDiv(total, limit))
  }

  lemma CeilDivBounds(total: nat, limit: nat)
    requires limit > 0
    ensures CeilDiv(total, limit).n * limit >= total
    ensures CeilDiv(total, limit).n > 0 ==> (CeilDiv(total, limit).n - 1) * limit < total
  {
    var n := CeilDiv(total, limit).n;
    assert total + limit - 1 == n * limit + (total + limit - 1) % limit;
  }

  lemma MulOrder(a: nat, b: nat, limit: nat)
    requires a <= b
    ensures a * limit <= b * limit
  {
  }

  lemma HasNextMeaning(total: nat, limit: nat, page: nat)
    requires limit > 0
    ensures HasNext(total, limit, page) <==> (page + 1) * limit < total
  {
    var n := CeilDiv(total, limit).n;
    CeilDivBounds(total, limit);
    if page + 1 < n { MulOrder(page + 1, n - 1, limit); } else { MulOrder(n, page + 1, limit); }
  }

  /** The rows a query with skip and take returns. */
  function Slice<T>(list: seq<T>, skip: nat, take: nat): seq<T> {
    if skip >= |list| then [] else if skip + take >= |list| then list[skip..] else list[skip..skip + take]
  }

  function Reply<T>(list: seq<T>, limit: nat, page: nat): seq<T> {
    Slice(list, Intercept(Some(page), Some(limit), 0).skip, limit)
  }

  function PagesLeft(total: nat, limit: nat, page: nat): nat
    requires limit > 0
  {
    var n := CeilDiv(total, limit).n;
    if page < n then n - page else 0
  }

  /** The replies a reader gets who starts at a page and goes on while there is a next one. */
  function Walk<T>(list: seq<T>, limit: nat, page: nat): seq<seq<T>>
    requires limit > 0
    decreases PagesLeft(|list|, limit, page)
  {
    [Reply(list, limit, page)] + if HasNext(|list|, limit, page) then Walk(list, limit, page + 1) else []
  }

  lemma WalkStep<T>(list: seq<T>, limit: nat, page: nat)
    requires limit > 0
    ensures Concat(Walk(list, limit, page))
            == Reply(list, limit, page)
               + if HasNext(|list|, limit, page) then Concat(Walk(list, limit, page + 1)) else []
  {
    var reply := Reply(list, limit, page);
    ConcatOne(reply);
    if HasNext(|list|, limit, page) {
      ConcatAppend([reply], Walk(list, limit, page + 1));
    } else {
      assert [reply] + [] == [reply];
    }
  }

  lemma ReplyAt<T>(list: seq<T>, limit: nat, page: nat, at: nat)
    requires at == page * limit
    ensures Reply(list, limit, page) == Slice(list, at, limit)
  {
  }

  lemma SliceThenRest<T>(list: seq<T>, at: nat, take: nat)
    requires at <= |list|
    ensures Slice(list, at, take) + (if at + take < |list| then list[at + take..] else []) == list[at..]
  {
  }

  lemma NextPage(total: nat, limit: nat, page: nat, at: nat)
    requires limit > 0 && at == page * limit
    ensures (page + 1) * limit == at + limit
    ensures HasNext(total, limit, page) <==> at + limit < total
  {
    HasNextMeaning(total, limit, page);
  }

  /** Where the slice of a page starts, one page after the other. */
  function Start(limit: nat, page: nat): nat {
    if page == 0 then 0 else Start(limit, page - 1) + limit
  }

  lemma {:induction false} StartIsProduct(limit: nat, page: nat)
    ensures Start(limit, page) == page * limit
  {
    if page > 0 {
      StartIsProduct(limit, page - 1);
      assert page * limit == (page - 1) * limit + limit;
    }
  }

  /** The items a reader has in hand who walks on from a page. */
  function Walked<T>(list: seq<T>, limit: nat, page: nat): seq<T>
    requires limit > 0
    decreases PagesLeft(|list|, limit, page)
  {
    Reply(list, limit, page) + if HasNext(|list|, limit, page) then Walked(list, limit, page + 1) else []
  }

  lemma {:induction false} WalkedIsConcat<T>(list: seq<T>, limit: nat, page: nat)
    requires limit > 0
    ensures Concat(Walk(list, limit, page)) == Walked(list, limit, page)
    decreases PagesLeft(|list|, limit, page)
  {
    WalkStep(list, limit, page);
    if HasNext(|list|, limit, page) {
      WalkedIsConcat(list, limit, page + 1);
    }
  }

  lemma OnePage<T>(list: seq<T>, limit: nat, page: nat, at: nat)
    requires limit > 0 && at == Start(limit, page) && at <= |list|
    ensures HasNext(|list|, limit, page) <==> at + limit < |list|
    ensures Reply(list, limit, page) == Slice(list, at, limit)
  {
    StartIsProduct(limit, page);
    NextPage(|list|, limit, page, at);
    ReplyAt(list, limit, page, at);
  }

  lemma {:induction false} WalkFrom<T>(list: seq<T>, limit: nat, page: nat, at: nat)
    requires limit > 0 && at == Start(limit, page) && at <= |list|
    ensures Walked(list, limit, page) == list[at..]
    decreases |list| - at
  {
    OnePage(list, limit, page, at);
    SliceThenRest(list, at, limit);
    if at + limit < |list| {
      WalkFrom(list, limit, page + 1, at + limit);
    }
  }

  lemma {:induction false} WalkLength<T>(list: seq<T>, limit: nat, page: nat)
    requires limit > 0
    ensures |Walk(list, limit, page)|
            == if PagesLeft(|list|, limit, page) == 0 then 1 else PagesLeft(|list|, limit, page)
    decreases PagesLeft(|list|, limit, page)
  {
    if HasNext(|list|, limit, page) {
      WalkLength(list, limit, page + 1);
    }
  }

  /** Walking all pages from the first gives back the whole list, nothing twice and nothing left out, in
      max(1, ceil(total / limit)) requests. */
  lemma WalkReassembles<T>(list: seq<T>, limit: nat)
    requires limit > 0
    ensures Concat(Walk(list, limit, 0)) == list
    ensures |Walk(list, limit, 0)| == if list == [] then 1 else CeilDiv(|list|, limit).n
  {
    WalkFrom(list, limit, 0, 0);
    WalkedIsConcat(list, limit, 0);
    assert list[0..] == list;
    WalkLength(list, limit, 0);
    if list != [] { SomePages(|list|, limit); }
  }

  lemma SomePages(total: nat, limit: nat)
    requires total > 0 && limit > 0
    ensures CeilDiv(total, limit).n > 0
  {
    CeilDivBounds(total, limit);
  }

  /** With a limit of zero a walk over a list that is not empty is told to go on for ever. */
  lemma ZeroLimitNeverEnds(total: nat, page: nat)
    ensures HasNext(total, 0, page) <==> total > 0
  {
  }
}
