/** The job that copies draws, prizes and biggest winners from the chain, run again and again.

    Amounts are whole micro units; the conversion to full units cancels out in the returns. */
module DrawsSync {
  import opened Decimal
  import opened Occurrences
  import opened Options
  import opened Paging
  import opened Grouping
  import BW = BiggestWinner

  const DAY: int := 3600 * 24

  /** Draws created longer ago than this are left alone: two weeks, in seconds. */
  const RECHECK_PERIOD: int := DAY * 7 * 2

  datatype PrizeRef = PrizeRef(prizeId: int, winner: string, amount: nat)

  datatype Draw = Draw(drawId: int, state: int, createdAtHeight: int, createdAt: int, prizes: seq<PrizeRef>)

  datatype DrawKey = DrawKey(poolId: int, drawId: int)

  datatype PrizeKey = PrizeKey(draw: DrawKey, prizeId: int)

  /** The tables keep days only. */
  datatype DrawRow = DrawRow(key: DrawKey, state: int, createdAtHeight: int, createdOn: int)

  datatype PrizeRow = PrizeRow(key: PrizeKey, winner: string, amount: nat, denom: string, createdAtHeight: int,
                               createdOn: int, expiresOn: int)

  /** The identifiers as text. */
  function DrawId(k: DrawKey): string {
    Print(k.poolId) + ("-" + Print(k.drawId))
  }

  function PrizeId(k: PrizeKey): string {
    Print(k.draw.poolId) + ("-" + (Print(k.draw.drawId) + ("-" + Print(k.prizeId))))
  }

  lemma PrintInjective(a: int, b: int)
    requires Print(a) == Print(b)
    ensures a == b
  {
    assert Print(a) + "" == Print(b) + "";
    PrintIsPrefixCode(a, "", b, "");
  }

  /** Rows of different draws or prizes never share an identifier. */
  lemma IdsInjective(k: PrizeKey, l: PrizeKey)
    ensures DrawId(k.draw) == DrawId(l.draw) ==> k.draw == l.draw
    ensures PrizeId(k) == PrizeId(l) ==> k == l
  {
    var a, b := Print(k.draw.drawId), Print(l.draw.drawId);
    if DrawId(k.draw) == DrawId(l.draw) {
      PrintIsPrefixCode(k.draw.poolId, "-" + a, l.draw.poolId, "-" + b);
      CancelPrefix("-", a, b);
      PrintInjective(k.draw.drawId, l.draw.drawId);
    }
    if PrizeId(k) == PrizeId(l) {
      var p, q := "-" + Print(k.prizeId), "-" + Print(l.prizeId);
      PrintIsPrefixCode(k.draw.poolId, "-" + (a + p), l.draw.poolId, "-" + (b + q));
      CancelPrefix("-", a + p, b + q);
      PrintIsPrefixCode(k.draw.drawId, p, l.draw.drawId, q);
      CancelPrefix("-", Print(k.prizeId), Print(l.prizeId));
      PrintInjective(k.prizeId, l.prizeId);
    }
  }

  // ---- sums of one draw ----

  /** Adds a prize to the winner's sum. An address that is empty is taken for an absent one, so its sum
      starts over. */
  function AddPrize(dict: Dictionary, p: PrizeRef): Dictionary {
    if p.winner !in dict.sums then Dictionary(dict.order + [p.winner], dict.sums[p.winner := p.amount])
    else if p.winner != "" then dict.(sums := dict.sums[p.winner := dict.sums[p.winner] + p.amount])
    else dict.(sums := dict.sums[p.winner := p.amount])
  }

  function WinnerSums(prizes: seq<PrizeRef>): Dictionary {
    if prizes == [] then Dictionary([], map[]) else AddPrize(WinnerSums(prizes[..|prizes| - 1]), prizes[|prizes| - 1])
  }

  ghost predicate Tidy(dict: Dictionary) {
    && NoRepeat(dict.order) && SameKeys(dict)
    && (forall a :: a in dict.sums ==> dict.sums[a] >= 0)
  }

  lemma {:induction false} WinnerSumsTidy(prizes: seq<PrizeRef>)
    ensures Tidy(WinnerSums(prizes))
  {
    if prizes != [] {
      var before := WinnerSums(prizes[..|prizes| - 1]);
      WinnerSumsTidy(prizes[..|prizes| - 1]);
      var a := prizes[|prizes| - 1].winner;
      assert a in before.sums <==> a in before.order;
    }
  }

  function SumOf(dict: Dictionary, a: string): int {
    if a in dict.sums then dict.sums[a] else 0
  }

  function SumOver(order: seq<string>, dict: Dictionary): int {
    if order == [] then 0 else SumOver(order[..|order| - 1], dict) + SumOf(dict, order[|order| - 1])
  }

  function TotalPrizes(prizes: seq<PrizeRef>): int {
    if prizes == [] then 0 else TotalPrizes(prizes[..|prizes| - 1]) + prizes[|prizes| - 1].amount
  }

  /** What the empty address loses when its sum starts over. */
  function Lost(prizes: seq<PrizeRef>): nat {
    if prizes == [] then 0
    else
      var before, p := prizes[..|prizes| - 1], prizes[|prizes| - 1];
      WinnerSumsTidy(before);
      Lost(before) + if p.winner == "" then SumOf(WinnerSums(before), "") else 0
  }

  lemma {:induction false} SumOverChange(order: seq<string>, dict: Dictionary, other: Dictionary, a: string)
    requires NoRepeat(order) && forall b :: b != a ==> SumOf(other, b) == SumOf(dict, b)
    ensures SumOver(order, other) == SumOver(order, dict) + if a in order then SumOf(other, a) - SumOf(dict, a) else 0
  {
    if order != [] {
      var n := |order| - 1;
      SumOverChange(order[..n], dict, other, a);
      if order[n] == a { assert a !in order[..n]; }
    }
  }

  lemma AddPrizeSum(dict: Dictionary, p: PrizeRef)
    requires Tidy(dict)
    ensures SumOver(AddPrize(dict, p).order, AddPrize(dict, p))
            == SumOver(dict.order, dict) + p.amount - if p.winner == "" then SumOf(dict, "") else 0
  {
    var u := AddPrize(dict, p);
    SumOverChange(dict.order, dict, u, p.winner);
    if p.winner !in dict.sums {
      assert u.order[..|dict.order|] == dict.order;
      assert p.winner !in dict.order;
    }
  }

  /** Within a draw the sums of the winners add up to all prizes, except for what an empty address loses. */
  lemma {:induction false} WinnerSumsConserve(prizes: seq<PrizeRef>)
    ensures SumOver(WinnerSums(prizes).order, WinnerSums(prizes)) + Lost(prizes) == TotalPrizes(prizes)
  {
    if prizes != [] {
      var before := prizes[..|prizes| - 1];
      WinnerSumsConserve(before);
      WinnerSumsTidy(before);
      AddPrizeSum(WinnerSums(before), prizes[|prizes| - 1]);
    }
  }

  /** What an address won in a draw. */
  function PrizesOfAddress(prizes: seq<PrizeRef>, a: string): nat {
    if prizes == [] then 0
    else
      var p := prizes[|prizes| - 1];
      PrizesOfAddress(prizes[..|prizes| - 1], a) + if p.winner == a then p.amount else 0
  }

  /** Each winner's sum is the total of its own prizes. */
  lemma {:induction false} WinnerSumsByAddress(prizes: seq<PrizeRef>, a: string)
    requires a != ""
    ensures SumOf(WinnerSums(prizes), a) == PrizesOfAddress(prizes, a)
    ensures a in WinnerSums(prizes).order <==> exists i :: 0 <= i < |prizes| && prizes[i].winner == a
  {
    if prizes != [] {
      var n := |prizes| - 1;
      WinnerSumsByAddress(prizes[..n], a);
      WinnerSumsTidy(prizes[..n]);
      assert forall i :: 0 <= i < n ==> prizes[..n][i] == prizes[i];
      assert a in WinnerSums(prizes[..n]).order <==> a in WinnerSums(prizes[..n]).sums;
    }
  }

  /** What stands for the empty address is the last of its prizes. */
  lemma {:induction false} EmptyAddressStartsOver(prizes: seq<PrizeRef>, i: int)
    requires 0 <= i < |prizes| && prizes[i].winner == "" && forall j :: i < j < |prizes| ==> prizes[j].winner != ""
    ensures SumOf(WinnerSums(prizes), "") == prizes[i].amount
  {
    var n := |prizes| - 1;
    if i < n {
      EmptyAddressStartsOver(prizes[..n], i);
    }
  }

  /** Nothing is lost when no address is empty. */
  lemma {:induction false} NothingLost(prizes: seq<PrizeRef>)
    requires forall i :: 0 <= i < |prizes| ==> prizes[i].winner != ""
    ensures Lost(prizes) == 0
  {
    if prizes != [] {
      NothingLost(prizes[..|prizes| - 1]);
    }
  }

  /** Within a draw whose prizes all name a winner, the sums of the winners add up to all prizes. */
  lemma NamedWinnersConserve(prizes: seq<PrizeRef>)
    requires forall i :: 0 <= i < |prizes| ==> prizes[i].winner != ""
    ensures SumOver(WinnerSums(prizes).order, WinnerSums(prizes)) == TotalPrizes(prizes)
  {
    NothingLost(prizes);
    WinnerSumsConserve(prizes);
  }

  // ---- the wins of one draw ----

  /** What an address had deposited in the pool before a height, sponsoring left out. */
  function DepositedBefore(ds: seq<ChainDeposit>, height: int): int {
    if ds == [] then 0
    else
      var d := ds[|ds| - 1];
      DepositedBefore(ds[..|ds| - 1], height) + if d.createdAtHeight < height && !d.isSponsor then d.amount else 0
  }

  /** No deposit of the list counts for a draw at the height. */
  ghost predicate NoneCounts(ds: seq<ChainDeposit>, height: int) {
    forall i :: 0 <= i < |ds| ==> ds[i].isSponsor || ds[i].createdAtHeight >= height
  }

  ghost predicate AllEarlier(ds: seq<ChainDeposit>, height: int) {
    forall i :: 0 <= i < |ds| ==> ds[i].createdAtHeight < height
  }

  lemma {:induction false} DepositedAppend(ds: seq<ChainDeposit>, es: seq<ChainDeposit>, height: int)
    ensures DepositedBefore(ds + es, height) == DepositedBefore(ds, height) + DepositedBefore(es, height)
  {
    if es == [] {
      assert ds + es == ds;
    } else {
      assert (ds + es)[..|ds + es| - 1] == ds + es[..|es| - 1];
      DepositedAppend(ds, es[..|es| - 1], height);
    }
  }

  lemma {:induction false} NothingDeposited(ds: seq<ChainDeposit>, height: int)
    requires NoneCounts(ds, height)
    ensures DepositedBefore(ds, height) == 0
  {
    if ds != [] {
      NothingDeposited(ds[..|ds| - 1], height);
    }
  }

  lemma {:induction false} AllDeposited(ds: seq<ChainDeposit>, height: int)
    requires AllEarlier(ds, height)
    ensures DepositedBefore(ds, height) == GrandTotal(ds)
  {
    if ds != [] {
      AllDeposited(ds[..|ds| - 1], height);
    }
  }

  /** A deposit that sponsors or is not earlier than the draw does not count, wherever it stands. */
  lemma LateDepositsNeverCount(before: seq<ChainDeposit>, d: ChainDeposit, after: seq<ChainDeposit>, height: int)
    requires d.isSponsor || d.createdAtHeight >= height
    ensures DepositedBefore(before + [d] + after, height) == DepositedBefore(before + after, height)
  {
    DepositedAppend(before + [d], after, height);
    DepositedAppend(before, [d], height);
    DepositedAppend(before, after, height);
    NothingDeposited([d], height);
  }

  datatype Item = Item(poolId: int, denom: string, draw: Draw)

  /** The draws of a pool, as the chain hands them out. */
  datatype PoolDraws = PoolDraws(poolId: int, denom: string, pages: seq<seq<Draw>>)

  /** What stays the same from pass to pass: the draws, the pages of deposits of each address in each
      pool, and how long prizes last. Deposits are never negative. */
  datatype Snapshot = Snapshot(
    pools: seq<PoolDraws>,
    deposits: map<(string, int), seq<seq<ChainDeposit>>>,
    expiration: int
  )

  function PagesOf(s: Snapshot, address: string, poolId: int): seq<seq<ChainDeposit>> {
    if (address, poolId) in s.deposits then s.deposits[(address, poolId)] else []
  }

  function ItemsOf(pool: PoolDraws, draws: seq<Draw>): (items: seq<Item>)
    ensures |items| == |draws|
    ensures forall i :: 0 <= i < |items| ==> items[i] == Item(pool.poolId, pool.denom, draws[i])
  {
    seq(|draws|, i requires 0 <= i < |draws| => Item(pool.poolId, pool.denom, draws[i]))
  }

  /** All draws of all pools, in the order of the pools and of their pages. */
  function Listing(pools: seq<PoolDraws>): seq<Item> {
    if pools == [] then []
    else
      var pool := pools[|pools| - 1];
      Listing(pools[..|pools| - 1]) + ItemsOf(pool, Concat(pool.pages))
  }

  lemma OneMoreItem(done: seq<Item>, pool: PoolDraws, draws: seq<Draw>, i: nat)
    requires i < |draws|
    ensures done + ItemsOf(pool, draws[..i + 1])
            == done + ItemsOf(pool, draws[..i]) + [Item(pool.poolId, pool.denom, draws[i])]
  {
  }

  lemma ItemsAppend(done: seq<Item>, pool: PoolDraws, draws: seq<Draw>, more: seq<Draw>)
    ensures done + ItemsOf(pool, draws + more) == done + ItemsOf(pool, draws) + ItemsOf(pool, more)
  {
  }

  lemma {:induction false} OneMorePool(pools: seq<PoolDraws>, p: nat)
    requires p < |pools|
    ensures Listing(pools[..p + 1]) == Listing(pools[..p]) + ItemsOf(pools[p], Concat(pools[p].pages))
    ensures |Listing(pools[..p + 1])| <= |Listing(pools)|
    decreases |pools|
  {
    assert pools[..p + 1][..p] == pools[..p];
    if p + 1 == |pools| {
      assert pools[..p + 1] == pools;
    } else {
      var init := pools[..|pools| - 1];
      OneMorePool(init, p);
      assert init[..p + 1] == pools[..p + 1];
    }
  }

  function KeyOf(item: Item): DrawKey {
    DrawKey(item.poolId, item.draw.drawId)
  }

  function AsNat(i: int): nat {
    if i < 0 then 0 else i
  }

  function WinOf(s: Snapshot, item: Item, address: string): BW.Winner {
    var raw := AsNat(SumOf(WinnerSums(item.draw.prizes), address));
    var sum := AsNat(DepositedBefore(Concat(PagesOf(s, address, item.poolId)), item.draw.createdAtHeight));
    BW.Winner(address, item.draw.drawId, raw, item.poolId, item.denom, sum, BW.AprOf(raw, sum),
              item.draw.createdAtHeight, item.draw.createdAt)
  }

  /** Deposits on the chain are never negative. */
  ghost predicate NoNegative(ds: seq<ChainDeposit>) {
    forall i :: 0 <= i < |ds| ==> ds[i].amount >= 0
  }

  lemma {:induction false} DepositedNotNegative(ds: seq<ChainDeposit>, height: int)
    requires NoNegative(ds)
    ensures DepositedBefore(ds, height) >= 0
  {
    if ds != [] {
      DepositedNotNegative(ds[..|ds| - 1], height);
    }
  }

  /** The win of a named address in a draw, field by field: all it won in the draw, what it had deposited in
      the pool before, the return of the one on the other, and where and when. */
  lemma WinMeaning(s: Snapshot, item: Item, address: string, ds: seq<ChainDeposit>)
    requires address != "" && NoNegative(ds)
    requires if (address, item.poolId) in s.deposits then CutInto(ds, s.deposits[(address, item.poolId)]) else ds == []
    ensures var win := WinOf(s, item, address);
            && win.id == address && win.poolId == item.poolId && win.drawId == item.draw.drawId
            && win.denom == item.denom
            && win.rawAmount == PrizesOfAddress(item.draw.prizes, address)
            && win.sumOfDeposits == DepositedBefore(ds, item.draw.createdAtHeight)
            && win.apr == BW.AprOf(win.rawAmount, win.sumOfDeposits)
            && win.createdAtHeight == item.draw.createdAtHeight && win.createdAt == item.draw.createdAt
  {
    WinnerSumsByAddress(item.draw.prizes, address);
    CutIffConcat(ds, PagesOf(s, address, item.poolId));
    DepositedNotNegative(ds, item.draw.createdAtHeight);
  }

  function PrizeOf(s: Snapshot, item: Item, p: PrizeRef): PrizeRow {
    PrizeRow(PrizeKey(KeyOf(item), p.prizeId), p.winner, p.amount, item.denom, item.draw.createdAtHeight,
             item.draw.createdAt / DAY, (item.draw.createdAt + s.expiration) / DAY)
  }

  function DrawOf(item: Item): DrawRow {
    DrawRow(KeyOf(item), item.draw.state, item.draw.createdAtHeight, item.draw.createdAt / DAY)
  }

  // ---- one pass ----

  datatype Tables = Tables(draws: map<DrawKey, DrawRow>, prizes: map<PrizeKey, PrizeRow>, winners: BW.Table)

  /** A saved draw that is less than thirteen days old is read again, one that is two weeks old is not; in
      between the hour decides, because the table keeps the day only. */
  lemma TwoWeekRule(item: Item, now: int)
    ensures now - item.draw.createdAt < 13 * 86400 ==> !CreatedLongBefore(now, DrawOf(item))
    ensures now - item.draw.createdAt >= 14 * 86400 ==> CreatedLongBefore(now, DrawOf(item))
    ensures CreatedLongBefore(now, DrawOf(item)) <==> (item.draw.createdAt / 86400) * 86400 <= now - 14 * 86400
  {
  }

  /** Which saved draws a pass leaves alone: told by the place of the draw in the pass and by its row. */
  type Rule = (nat, DrawRow) -> bool

  predicate CreatedLongBefore(now: int, row: DrawRow) {
    row.createdOn * DAY <= now - RECHECK_PERIOD
  }

  /** The two-week rule; the clock is read once for each draw. */
  function ByTheClock(clock: seq<int>): Rule {
    (n: nat, row: DrawRow) => n < |clock| && CreatedLongBefore(clock[n], row)
  }

  predicate Skipped(t: Tables, item: Item, n: nat, rule: Rule) {
    KeyOf(item) in t.draws && rule(n, t.draws[KeyOf(item)])
  }

  function SavePrizes(prizes: map<PrizeKey, PrizeRow>, s: Snapshot, item: Item, refs: seq<PrizeRef>)
      : map<PrizeKey, PrizeRow> {
    if refs == [] then prizes
    else
      var row := PrizeOf(s, item, refs[|refs| - 1]);
      SavePrizes(prizes, s, item, refs[..|refs| - 1])[row.key := row]
  }

  function SaveWins(winners: BW.Table, s: Snapshot, item: Item, addresses: seq<string>): BW.Table {
    if addresses == [] then winners
    else
      var before := SaveWins(winners, s, item, addresses[..|addresses| - 1]);
      var win := WinOf(s, item, addresses[|addresses| - 1]);
      before[win.id := BW.Upsert(BW.Lookup(before, win.id), win)]
  }

  /** What a draw writes when it is not skipped. */
  function WriteDraw(t: Tables, s: Snapshot, item: Item): Tables {
    Tables(if KeyOf(item) in t.draws then t.draws else t.draws[KeyOf(item) := DrawOf(item)],
           SavePrizes(t.prizes, s, item, item.draw.prizes),
           SaveWins(t.winners, s, item, WinnerSums(item.draw.prizes).order))
  }

  /** The n-th draw of a pass. */
  function SyncDraw(t: Tables, s: Snapshot, item: Item, n: nat, rule: Rule): Tables {
    if Skipped(t, item, n, rule) then t else WriteDraw(t, s, item)
  }

  function Sync(t: Tables, s: Snapshot, items: seq<Item>, rule: Rule): Tables {
    if items == [] then t
    else
      var n := |items| - 1;
      SyncDraw(Sync(t, s, items[..n], rule), s, items[n], n, rule)
  }

  lemma SyncOneMore(t: Tables, s: Snapshot, items: seq<Item>, item: Item, clock: seq<int>)
    requires |items| < |clock|
    ensures var mid := Sync(t, s, items, ByTheClock(clock));
            Sync(t, s, items + [item], ByTheClock(clock))
            == if KeyOf(item) in mid.draws && CreatedLongBefore(clock[|items|], mid.draws[KeyOf(item)]) then mid
               else WriteDraw(mid, s, item)
  {
    assert (items + [item])[..|items|] == items;
  }

  // ---- the loops of the source ----

  /** Sums the deposits page by page: however the deposits are cut into pages, those count that come before
      the height and do not sponsor. */
  method SumDepositsBefore(pages: seq<seq<ChainDeposit>>, height: int) returns (sum: int)
    ensures sum == DepositedBefore(Concat(pages), height)
    ensures forall ds :: CutInto(ds, pages) ==>
              && sum == DepositedBefore(ds, height)
              && (NoneCounts(ds, height) ==> sum == 0)
              && (AllEarlier(ds, height) ==> sum == GrandTotal(ds))
  {
    sum := 0;
    for p := 0 to |pages|
      invariant sum == DepositedBefore(Concat(pages[..p]), height)
    {
      var page, subtotal := pages[p], 0;
      for i := 0 to |page|
        invariant subtotal == DepositedBefore(page[..i], height)
      {
        assert page[..i + 1][..i] == page[..i];
        if page[i].createdAtHeight < height && !page[i].isSponsor {
          subtotal := subtotal + page[i].amount;
        }
      }
      assert page[..|page|] == page && pages[..p + 1][..p] == pages[..p];
      DepositedAppend(Concat(pages[..p]), page, height);
      sum := sum + subtotal;
    }
    assert pages[..|pages|] == pages;
    forall ds | CutInto(ds, pages)
      ensures ds == Concat(pages)
    {
      CutIffConcat(ds, pages);
    }
    if NoneCounts(Concat(pages), height) { NothingDeposited(Concat(pages), height); }
    if AllEarlier(Concat(pages), height) { AllDeposited(Concat(pages), height); }
  }

  /** The win of one address: its prizes in the draw over what it had deposited before. */
  method Win(s: Snapshot, item: Item, sums: Dictionary, address: string) returns (win: BW.Winner)
    requires sums == WinnerSums(item.draw.prizes)
    ensures win == WinOf(s, item, address)
  {
    var sum := SumDepositsBefore(PagesOf(s, address, item.poolId), item.draw.createdAtHeight);
    var raw := AsNat(SumOf(sums, address));
    win := BW.Winner(address, item.draw.drawId, raw, item.poolId, item.denom, AsNat(sum), BW.AprOf(raw, AsNat(sum)),
                     item.draw.createdAtHeight, item.draw.createdAt);
  }

  class MillionsTables {
    var draws: map<DrawKey, DrawRow>
    var prizes: map<PrizeKey, PrizeRow>
    const winners: BW.BiggestWinnerService

    constructor ()
      ensures fresh(winners) && View() == Tables(map[], map[], map[])
    {
      draws, prizes := map[], map[];
      winners := new BW.BiggestWinnerService();
    }

    ghost function View(): Tables
      reads this, winners
    {
      Tables(draws, prizes, winners.winners)
    }

    /** Writes the prizes of a draw and sums them by winner. */
    method SavePrizeRefs(s: Snapshot, item: Item) returns (sums: Dictionary)
      modifies this`prizes
      ensures View() == old(View()).(prizes := SavePrizes(old(prizes), s, item, item.draw.prizes))
      ensures sums == WinnerSums(item.draw.prizes)
    {
      var refs := item.draw.prizes;
      sums := Dictionary([], map[]);
      for i := 0 to |refs|
        invariant prizes == SavePrizes(old(prizes), s, item, refs[..i])
        invariant sums == WinnerSums(refs[..i])
      {
        assert refs[..i + 1][..i] == refs[..i];
        var row := PrizeOf(s, item, refs[i]);
        prizes := prizes[row.key := row];
        sums := AddPrize(sums, refs[i]);
      }
      assert refs[..|refs|] == refs;
    }

    /** Offers the win of each address to the table of biggest winners. */
    method SaveWinners(s: Snapshot, item: Item, sums: Dictionary)
      requires sums == WinnerSums(item.draw.prizes)
      modifies winners
      ensures winners.winners == SaveWins(old(winners.winners), s, item, sums.order)
    {
      for i := 0 to |sums.order|
        invariant winners.winners == SaveWins(old(winners.winners), s, item, sums.order[..i])
      {
        assert sums.order[..i + 1][..i] == sums.order[..i];
        var win := Win(s, item, sums, sums.order[i]);
        winners.CreateOrUpdateAccordingToApr(win);
      }
      assert sums.order[..|sums.order|] == sums.order;
    }

    /** One draw, at the time now. */
    method ProcessDraw(s: Snapshot, item: Item, now: int)
      modifies this`draws, this`prizes, winners
      ensures View() == if KeyOf(item) in old(draws) && CreatedLongBefore(now, old(draws)[KeyOf(item)]) then old(View())
                        else WriteDraw(old(View()), s, item)
    {
      var key := KeyOf(item);
      if key in draws && draws[key].createdOn * DAY <= now - RECHECK_PERIOD {
        return;
      }
      if key !in draws {
        draws := draws[key := DrawOf(item)];
      }
      if |item.draw.prizes| > 0 {
        var sums := SavePrizeRefs(s, item);
        SaveWinners(s, item, sums);
      }
    }

    /** The n-th draw of a pass. */
    method SyncNext(s: Snapshot, item: Item, clock: seq<int>, n: nat, ghost start: Tables, ghost done: seq<Item>)
      requires |done| == n < |clock|
      requires View() == Sync(start, s, done, ByTheClock(clock))
      modifies this`draws, this`prizes, winners
      ensures View() == Sync(start, s, done + [item], ByTheClock(clock))
    {
      SyncOneMore(start, s, done, item, clock);
      ProcessDraw(s, item, clock[n]);
    }

    /** The draws of one page. So many draws were processed before. */
    method SyncPage(s: Snapshot, pool: PoolDraws, draws: seq<Draw>, clock: seq<int>, before: nat,
                    ghost start: Tables, ghost done: seq<Item>)
      requires |done| == before && |clock| >= before + |draws|
      requires View() == Sync(start, s, done, ByTheClock(clock))
      modifies this`draws, this`prizes, winners
      ensures View() == Sync(start, s, done + ItemsOf(pool, draws), ByTheClock(clock))
    {
      ghost var items := done;
      for i := 0 to |draws|
        invariant items == done + ItemsOf(pool, draws[..i])
        invariant View() == Sync(start, s, items, ByTheClock(clock))
      {
        var item := Item(pool.poolId, pool.denom, draws[i]);
        OneMoreItem(done, pool, draws, i);
        SyncNext(s, item, clock, before + i, start, items);
        items := items + [item];
      }
      assert draws[..|draws|] == draws;
    }

    /** The draws of one pool, page by page. */
    method SyncPool(s: Snapshot, pool: PoolDraws, clock: seq<int>, before: nat, ghost start: Tables,
                    ghost done: seq<Item>) returns (after: nat)
      requires |done| == before && |clock| >= before + |Concat(pool.pages)|
      requires View() == Sync(start, s, done, ByTheClock(clock))
      modifies this`draws, this`prizes, winners
      ensures after == before + |Concat(pool.pages)|
      ensures View() == Sync(start, s, done + ItemsOf(pool, Concat(pool.pages)), ByTheClock(clock))
    {
      after := before;
      ghost var items := done;
      for p := 0 to |pool.pages|
        invariant after == before + |Concat(pool.pages[..p])|
        invariant items == done + ItemsOf(pool, Concat(pool.pages[..p]))
        invariant View() == Sync(start, s, items, ByTheClock(clock))
      {
        var page := pool.pages[p];
        OneMorePage(pool.pages, p);
        ItemsAppend(done, pool, Concat(pool.pages[..p]), page);
        SyncPage(s, pool, page, clock, after, start, items);
        after := after + |page|;
        items := items + ItemsOf(pool, page);
      }
      assert pool.pages[..|pool.pages|] == pool.pages;
    }

    /** All draws of all pools, in the order in which the chain lists them, with what the clock shows at
        each of them. */
    method DrawsSync(s: Snapshot, clock: seq<int>)
      requires |clock| >= |Listing(s.pools)|
      modifies this`draws, this`prizes, winners
      ensures View() == Sync(old(View()), s, Listing(s.pools), ByTheClock(clock))
    {
      var n := 0;
      for p := 0 to |s.pools|
        invariant n == |Listing(s.pools[..p])|
        invariant View() == Sync(old(View()), s, Listing(s.pools[..p]), ByTheClock(clock))
      {
        OneMorePool(s.pools, p);
        n := SyncPool(s, s.pools[p], clock, n, old(View()), Listing(s.pools[..p]));
      }
      assert s.pools[..|s.pools|] == s.pools;
    }
  }

  // ---- a second pass changes nothing ----

  /** Draws and prizes have identifiers of their own, and no prize is zero. */
  ghost predicate Proper(items: seq<Item>) {
    && (forall i, j :: 0 <= i < j < |items| ==> KeyOf(items[i]) != KeyOf(items[j]))
    && (forall i :: 0 <= i < |items| ==> ProperDraw(items[i]))
  }

  ghost predicate ProperDraw(item: Item) {
    && (forall a, b :: 0 <= a < b < |item.draw.prizes| ==> item.draw.prizes[a].prizeId != item.draw.prizes[b].prizeId)
    && (forall a :: 0 <= a < |item.draw.prizes| ==> item.draw.prizes[a].amount > 0)
  }

  ghost predicate PrizesSaved(t: Tables, s: Snapshot, item: Item) {
    forall i :: 0 <= i < |item.draw.prizes| ==>
      var row := PrizeOf(s, item, item.draw.prizes[i]);
      row.key in t.prizes && t.prizes[row.key] == row
  }

  ghost predicate WinCounted(winners: BW.Table, win: BW.Winner) {
    win.id in winners && BW.AtLeast(winners[win.id].apr, win.apr)
  }

  ghost predicate WinsCounted(t: Tables, s: Snapshot, item: Item) {
    forall i :: 0 <= i < |WinnerSums(item.draw.prizes).order| ==>
      WinCounted(t.winners, WinOf(s, item, WinnerSums(item.draw.prizes).order[i]))
  }

  /** The tables already hold everything the draw would write. */
  ghost predicate UpToDate(t: Tables, s: Snapshot, item: Item) {
    KeyOf(item) in t.draws && PrizesSaved(t, s, item) && WinsCounted(t, s, item)
  }

  lemma {:induction false} SavePrizesAgain(prizes: map<PrizeKey, PrizeRow>, s: Snapshot, item: Item,
                                           refs: seq<PrizeRef>)
    requires forall i :: 0 <= i < |refs| ==>
               PrizeOf(s, item, refs[i]).key in prizes
               && prizes[PrizeOf(s, item, refs[i]).key] == PrizeOf(s, item, refs[i])
    ensures SavePrizes(prizes, s, item, refs) == prizes
  {
    if refs != [] {
      var before := refs[..|refs| - 1];
      assert forall i :: 0 <= i < |before| ==> before[i] == refs[i];
      SavePrizesAgain(prizes, s, item, before);
      var row := PrizeOf(s, item, refs[|refs| - 1]);
      assert prizes[row.key := row] == prizes;
    }
  }

  lemma {:induction false} SaveWinsAgain(winners: BW.Table, s: Snapshot, item: Item, addresses: seq<string>)
    requires forall i :: 0 <= i < |addresses| ==> WinCounted(winners, WinOf(s, item, addresses[i]))
    ensures SaveWins(winners, s, item, addresses) == winners
  {
    if addresses != [] {
      var n := |addresses| - 1;
      var before := addresses[..n];
      assert forall i :: 0 <= i < n ==> before[i] == addresses[i];
      SaveWinsAgain(winners, s, item, before);
      var win := WinOf(s, item, addresses[n]);
      assert WinCounted(winners, win);
      assert winners[win.id := winners[win.id]] == winners;
    }
  }

  lemma WriteDrawAgain(t: Tables, s: Snapshot, item: Item)
    requires UpToDate(t, s, item)
    ensures WriteDraw(t, s, item) == t
  {
    SavePrizesAgain(t.prizes, s, item, item.draw.prizes);
    SaveWinsAgain(t.winners, s, item, WinnerSums(item.draw.prizes).order);
  }

  // what one draw writes

  lemma {:induction false} SavePrizesWrites(prizes: map<PrizeKey, PrizeRow>, s: Snapshot, item: Item,
                                            refs: seq<PrizeRef>)
    ensures forall k :: k in prizes && k.draw != KeyOf(item) ==>
              k in SavePrizes(prizes, s, item, refs) && SavePrizes(prizes, s, item, refs)[k] == prizes[k]
    ensures (forall a, b :: 0 <= a < b < |refs| ==> refs[a].prizeId != refs[b].prizeId) ==>
              forall i :: 0 <= i < |refs| ==>
                PrizeOf(s, item, refs[i]).key in SavePrizes(prizes, s, item, refs)
                && SavePrizes(prizes, s, item, refs)[PrizeOf(s, item, refs[i]).key] == PrizeOf(s, item, refs[i])
  {
    if refs != [] {
      var n := |refs| - 1;
      var before := refs[..n];
      assert forall i :: 0 <= i < n ==> before[i] == refs[i];
      SavePrizesWrites(prizes, s, item, before);
    }
  }

  /** Upserting a defined return raises the record to it and never lowers a defined one. */
  lemma UpsertRaises(existing: Option<BW.Winner>, win: BW.Winner)
    requires !win.apr.NaN?
    ensures BW.AtLeast(BW.Upsert(existing, win).apr, win.apr)
    ensures existing.Some? && !existing.value.apr.NaN? ==> BW.AtLeast(BW.Upsert(existing, win).apr, existing.value.apr)
  {
  }

  lemma CountedStays(winners: BW.Table, win: BW.Winner, other: BW.Winner)
    requires WinCounted(winners, win) && !other.apr.NaN?
    ensures WinCounted(winners[other.id := BW.Upsert(BW.Lookup(winners, other.id), other)], win)
  {
    var u := winners[other.id := BW.Upsert(BW.Lookup(winners, other.id), other)];
    if win.id == other.id {
      UpsertRaises(BW.Lookup(winners, other.id), other);
      BW.AtLeastTransitive(u[win.id].apr, winners[win.id].apr, win.apr);
    }
  }

  lemma {:induction false} SaveWinsKeeps(winners: BW.Table, s: Snapshot, item: Item, addresses: seq<string>,
                                         win: BW.Winner)
    requires WinCounted(winners, win)
    requires forall i :: 0 <= i < |addresses| ==> !WinOf(s, item, addresses[i]).apr.NaN?
    ensures WinCounted(SaveWins(winners, s, item, addresses), win)
  {
    if addresses != [] {
      var n := |addresses| - 1;
      var before := addresses[..n];
      assert forall i :: 0 <= i < n ==> before[i] == addresses[i];
      SaveWinsKeeps(winners, s, item, before, win);
      CountedStays(SaveWins(winners, s, item, before), win, WinOf(s, item, addresses[n]));
    }
  }

  lemma {:induction false} SaveWinsCounts(winners: BW.Table, s: Snapshot, item: Item, addresses: seq<string>, i: int)
    requires 0 <= i < |addresses|
    requires forall j :: 0 <= j < |addresses| ==> !WinOf(s, item, addresses[j]).apr.NaN?
    ensures WinCounted(SaveWins(winners, s, item, addresses), WinOf(s, item, addresses[i]))
  {
    var n := |addresses| - 1;
    var before := addresses[..n];
    assert forall j :: 0 <= j < n ==> before[j] == addresses[j];
    var last := WinOf(s, item, addresses[n]);
    if i < n {
      SaveWinsCounts(winners, s, item, before, i);
      CountedStays(SaveWins(winners, s, item, before), WinOf(s, item, addresses[i]), last);
    } else {
      UpsertRaises(BW.Lookup(SaveWins(winners, s, item, before), last.id), last);
    }
  }

  lemma {:induction false} SumsPositive(prizes: seq<PrizeRef>)
    requires forall i :: 0 <= i < |prizes| ==> prizes[i].amount > 0
    ensures forall a :: a in WinnerSums(prizes).sums ==> WinnerSums(prizes).sums[a] > 0
  {
    if prizes != [] {
      SumsPositive(prizes[..|prizes| - 1]);
    }
  }

  lemma ReturnsDefined(s: Snapshot, item: Item)
    requires ProperDraw(item)
    ensures forall i :: 0 <= i < |WinnerSums(item.draw.prizes).order|
                        ==> !WinOf(s, item, WinnerSums(item.draw.prizes).order[i]).apr.NaN?
  {
    var sums := WinnerSums(item.draw.prizes);
    SumsPositive(item.draw.prizes);
    WinnerSumsTidy(item.draw.prizes);
    forall i | 0 <= i < |sums.order|
      ensures !WinOf(s, item, sums.order[i]).apr.NaN?
    {
      assert sums.order[i] in sums.order;
      assert sums.sums[sums.order[i]] > 0;
    }
  }

  lemma WriteDrawUpdates(t: Tables, s: Snapshot, item: Item)
    requires ProperDraw(item)
    ensures UpToDate(WriteDraw(t, s, item), s, item)
  {
    SavePrizesWrites(t.prizes, s, item, item.draw.prizes);
    ReturnsDefined(s, item);
    var order := WinnerSums(item.draw.prizes).order;
    forall i | 0 <= i < |order|
      ensures WinCounted(SaveWins(t.winners, s, item, order), WinOf(s, item, order[i]))
    {
      SaveWinsCounts(t.winners, s, item, order, i);
    }
  }

  lemma WriteDrawKeeps(t: Tables, s: Snapshot, item: Item, other: Item)
    requires ProperDraw(other) && KeyOf(item) != KeyOf(other) && UpToDate(t, s, item)
    ensures UpToDate(WriteDraw(t, s, other), s, item)
  {
    SavePrizesWrites(t.prizes, s, other, other.draw.prizes);
    ReturnsDefined(s, other);
    var order := WinnerSums(item.draw.prizes).order;
    forall i | 0 <= i < |order|
      ensures WinCounted(SaveWins(t.winners, s, other, WinnerSums(other.draw.prizes).order), WinOf(s, item, order[i]))
    {
      SaveWinsKeeps(t.winners, s, other, WinnerSums(other.draw.prizes).order, WinOf(s, item, order[i]));
    }
  }

  /** A draw row, once saved, is never written again, whatever later snapshots say about the draw. */
  lemma {:induction false} FirstWriteWins(t: Tables, s: Snapshot, items: seq<Item>, rule: Rule)
    ensures var u := Sync(t, s, items, rule);
            forall k :: k in t.draws ==> k in u.draws && u.draws[k] == t.draws[k]
  {
    if items != [] {
      FirstWriteWins(t, s, items[..|items| - 1], rule);
    }
  }

  lemma {:induction false} DrawsSaved(t: Tables, s: Snapshot, items: seq<Item>, rule: Rule, k: DrawKey)
    requires k in Sync(t, s, items, rule).draws
    ensures k in t.draws || exists i :: 0 <= i < |items| && KeyOf(items[i]) == k
  {
    if items != [] {
      var n := |items| - 1;
      if k in Sync(t, s, items[..n], rule).draws {
        DrawsSaved(t, s, items[..n], rule, k);
        assert forall i :: 0 <= i < n ==> items[..n][i] == items[i];
      } else {
        assert KeyOf(items[n]) == k;
      }
    }
  }

  /** Whether the last draw of a pass is skipped is settled before the pass starts. */
  lemma SkippedAtStart(t: Tables, s: Snapshot, items: seq<Item>, rule: Rule)
    requires Proper(items) && items != []
    ensures var n := |items| - 1;
            Skipped(Sync(t, s, items[..n], rule), items[n], n, rule) <==> Skipped(t, items[n], n, rule)
  {
    var n := |items| - 1;
    FirstWriteWins(t, s, items[..n], rule);
    if KeyOf(items[n]) in Sync(t, s, items[..n], rule).draws {
      DrawsSaved(t, s, items[..n], rule, KeyOf(items[n]));
    }
  }

  lemma ProperPrefix(items: seq<Item>)
    requires Proper(items) && items != []
    ensures Proper(items[..|items| - 1])
  {
    var before := items[..|items| - 1];
    assert forall i :: 0 <= i < |before| ==> before[i] == items[i];
  }

  lemma SyncDrawKeeps(t: Tables, s: Snapshot, item: Item, other: Item, n: nat, rule: Rule)
    requires ProperDraw(other) && KeyOf(item) != KeyOf(other) && UpToDate(t, s, item)
    ensures UpToDate(SyncDraw(t, s, other, n, rule), s, item)
  {
    WriteDrawKeeps(t, s, item, other);
  }

  lemma SyncDrawUpdates(t: Tables, s: Snapshot, item: Item, n: nat, rule: Rule)
    requires ProperDraw(item) && !Skipped(t, item, n, rule)
    ensures UpToDate(SyncDraw(t, s, item, n, rule), s, item)
  {
    WriteDrawUpdates(t, s, item);
  }

  /** After a pass each draw is up to date, unless the pass skipped it. */
  lemma {:induction false} PassSettles(t: Tables, s: Snapshot, items: seq<Item>, rule: Rule, i: int)
    requires Proper(items) && 0 <= i < |items| && !Skipped(t, items[i], i, rule)
    ensures UpToDate(Sync(t, s, items, rule), s, items[i])
  {
    var n := |items| - 1;
    var before := items[..n];
    var mid := Sync(t, s, before, rule);
    assert Sync(t, s, items, rule) == SyncDraw(mid, s, items[n], n, rule);
    if i < n {
      var item := before[i];
      ProperPrefix(items);
      PassSettles(t, s, before, rule, i);
      SyncDrawKeeps(mid, s, item, items[n], n, rule);
    } else {
      SkippedAtStart(t, s, items, rule);
      SyncDrawUpdates(mid, s, items[n], n, rule);
    }
  }

  lemma NotSavedBefore(t: Tables, s: Snapshot, items: seq<Item>, rule: Rule)
    requires Proper(items) && items != [] && KeyOf(items[|items| - 1]) !in t.draws
    ensures KeyOf(items[|items| - 1]) !in Sync(t, s, items[..|items| - 1], rule).draws
  {
    var before, key := items[..|items| - 1], KeyOf(items[|items| - 1]);
    assert forall j :: 0 <= j < |before| ==> before[j] == items[j] && KeyOf(before[j]) != key;
    if key in Sync(t, s, before, rule).draws { DrawsSaved(t, s, before, rule, key); }
  }

  lemma {:induction false} DrawRowSaved(t: Tables, s: Snapshot, items: seq<Item>, rule: Rule, i: int)
    requires Proper(items) && 0 <= i < |items| && KeyOf(items[i]) !in t.draws
    ensures KeyOf(items[i]) in Sync(t, s, items, rule).draws
    ensures Sync(t, s, items, rule).draws[KeyOf(items[i])] == DrawOf(items[i])
  {
    var n := |items| - 1;
    var before := items[..n];
    ProperPrefix(items);
    if i < n {
      assert before[i] == items[i];
      DrawRowSaved(t, s, before, rule, i);
    } else {
      NotSavedBefore(t, s, items, rule);
    }
  }

  /** What a pass writes for a draw that it does not skip, field by field: the row of the draw unless there
      was one, and a row for each of its prizes. */
  lemma PassWritesRows(t: Tables, s: Snapshot, items: seq<Item>, rule: Rule, i: int)
    requires Proper(items) && 0 <= i < |items| && !Skipped(t, items[i], i, rule)
    ensures var u, draw := Sync(t, s, items, rule), items[i].draw;
            var key := DrawKey(items[i].poolId, draw.drawId);
            && (key !in t.draws ==>
                  && key in u.draws && u.draws[key].state == draw.state
                  && u.draws[key].createdAtHeight == draw.createdAtHeight
                  && u.draws[key].createdOn == draw.createdAt / 86400)
            && (forall j :: 0 <= j < |draw.prizes| ==>
                  var k := PrizeKey(key, draw.prizes[j].prizeId);
                  && k in u.prizes && u.prizes[k].winner == draw.prizes[j].winner
                  && u.prizes[k].amount == draw.prizes[j].amount && u.prizes[k].denom == items[i].denom
                  && u.prizes[k].createdAtHeight == draw.createdAtHeight
                  && u.prizes[k].createdOn == draw.createdAt / 86400
                  && u.prizes[k].expiresOn == (draw.createdAt + s.expiration) / 86400)
  {
    PassSettles(t, s, items, rule, i);
    if KeyOf(items[i]) !in t.draws {
      DrawRowSaved(t, s, items, rule, i);
    }
    var u := Sync(t, s, items, rule);
    forall j | 0 <= j < |items[i].draw.prizes|
      ensures var row := PrizeOf(s, items[i], items[i].draw.prizes[j]); row.key in u.prizes && u.prizes[row.key] == row
    {
    }
  }

  lemma {:induction false} SettledPass(t: Tables, s: Snapshot, items: seq<Item>, rule: Rule)
    requires forall i :: 0 <= i < |items| ==> Skipped(t, items[i], i, rule) || UpToDate(t, s, items[i])
    ensures Sync(t, s, items, rule) == t
  {
    if items != [] {
      var n := |items| - 1;
      var before := items[..n];
      assert forall i :: 0 <= i < n ==> before[i] == items[i];
      SettledPass(t, s, before, rule);
      if !Skipped(t, items[n], n, rule) { WriteDrawAgain(t, s, items[n]); }
    }
  }

  /** A pass changes nothing iff each draw is skipped or up to date, from any tables and with any rule. */
  lemma PassChangesNothingIff(t: Tables, s: Snapshot, items: seq<Item>, rule: Rule)
    requires Proper(items)
    ensures Sync(t, s, items, rule) == t
            <==> forall i :: 0 <= i < |items| ==> Skipped(t, items[i], i, rule) || UpToDate(t, s, items[i])
  {
    if Sync(t, s, items, rule) == t {
      forall i | 0 <= i < |items|
        ensures Skipped(t, items[i], i, rule) || UpToDate(t, s, items[i])
      {
        if !Skipped(t, items[i], i, rule) { PassSettles(t, s, items, rule, i); }
      }
    } else if forall i :: 0 <= i < |items| ==> Skipped(t, items[i], i, rule) || UpToDate(t, s, items[i]) {
      SettledPass(t, s, items, rule);
    }
  }

  /** On a chain that did not change, a second pass leaves all three tables as they are, from any starting
      tables and whichever draws the two passes skip, iff the second pass also skips what the first one
      skipped, or finds it up to date all the same. */
  lemma SecondPassIff(t: Tables, s: Snapshot, items: seq<Item>, first: Rule, second: Rule)
    requires Proper(items)
    ensures var u := Sync(t, s, items, first);
            Sync(u, s, items, second) == u
            <==> forall i :: 0 <= i < |items| && Skipped(t, items[i], i, first)
                             ==> Skipped(u, items[i], i, second) || UpToDate(u, s, items[i])
  {
    var u := Sync(t, s, items, first);
    PassChangesNothingIff(u, s, items, second);
    forall i | 0 <= i < |items| && !Skipped(t, items[i], i, first)
      ensures UpToDate(u, s, items[i])
    {
      PassSettles(t, s, items, first, i);
    }
  }

  /** So a second pass changes nothing when it skips at least the saved draws that the first one skipped,
      and beyond these any others. */
  lemma SecondPassChangesNothing(t: Tables, s: Snapshot, items: seq<Item>, first: Rule, second: Rule)
    requires Proper(items)
    requires forall i :: 0 <= i < |items| && Skipped(t, items[i], i, first) ==> Skipped(t, items[i], i, second)
    ensures Sync(Sync(t, s, items, first), s, items, second) == Sync(t, s, items, first)
  {
    SecondPassIff(t, s, items, first, second);
    FirstWriteWins(t, s, items, first);
  }

  /** The two-week rule does that when the clock shows at each draw of the second pass no less than it did
      at the first. */
  lemma SecondPassByTheClock(t: Tables, s: Snapshot, clock: seq<int>, later: seq<int>)
    requires Proper(Listing(s.pools)) && |clock| == |later| == |Listing(s.pools)|
    requires forall i :: 0 <= i < |clock| ==> clock[i] <= later[i]
    ensures var u := Sync(t, s, Listing(s.pools), ByTheClock(clock));
            Sync(u, s, Listing(s.pools), ByTheClock(later)) == u
  {
    SecondPassChangesNothing(t, s, Listing(s.pools), ByTheClock(clock), ByTheClock(later));
  }

  // ---- the first pass, and the running maximum ----

  /** The wins of an address, one for each draw it won something in, in the order of the draws. */
  function WinsOf(s: Snapshot, items: seq<Item>, a: string): seq<BW.Winner> {
    if items == [] then []
    else
      var item := items[|items| - 1];
      WinsOf(s, items[..|items| - 1], a) + if a in WinnerSums(item.draw.prizes).order then [WinOf(s, item, a)] else []
  }

  lemma {:induction false} SaveWinsOf(winners: BW.Table, s: Snapshot, item: Item, addresses: seq<string>, a: string)
    requires NoRepeat(addresses)
    ensures BW.Lookup(SaveWins(winners, s, item, addresses), a)
            == if a in addresses then Some(BW.Upsert(BW.Lookup(winners, a), WinOf(s, item, a)))
               else BW.Lookup(winners, a)
  {
    if addresses != [] {
      var n := |addresses| - 1;
      SaveWinsOf(winners, s, item, addresses[..n], a);
      if addresses[n] == a { assert a !in addresses[..n]; }
    }
  }

  lemma OneMoreDraw(t: Tables, s: Snapshot, item: Item, a: string, wins: seq<BW.Winner>)
    requires BW.Lookup(t.winners, a) == BW.RecordAfter(wins)
    ensures BW.Lookup(WriteDraw(t, s, item).winners, a)
            == BW.RecordAfter(wins + if a in WinnerSums(item.draw.prizes).order then [WinOf(s, item, a)] else [])
  {
    WinnerSumsTidy(item.draw.prizes);
    SaveWinsOf(t.winners, s, item, WinnerSums(item.draw.prizes).order, a);
    assert (wins + [WinOf(s, item, a)])[..|wins|] == wins;
    assert wins + [] == wins;
  }

  /** Starting from empty tables, a pass leaves for each address the record that all its wins lead to:
      the running maximum described for the biggest winner table. */
  lemma {:induction false} FirstPassKeepsBest(s: Snapshot, items: seq<Item>, rule: Rule, a: string)
    requires Proper(items)
    ensures BW.Lookup(Sync(Tables(map[], map[], map[]), s, items, rule).winners, a)
            == BW.RecordAfter(WinsOf(s, items, a))
  {
    if items != [] {
      var n := |items| - 1;
      var before := items[..n];
      var empty := Tables(map[], map[], map[]);
      var mid := Sync(empty, s, before, rule);
      ProperPrefix(items);
      FirstPassKeepsBest(s, before, rule, a);
      SkippedAtStart(empty, s, items, rule);
      assert Sync(empty, s, items, rule) == WriteDraw(mid, s, items[n]);
      OneMoreDraw(mid, s, items[n], a, WinsOf(s, before, a));
    }
  }
}
