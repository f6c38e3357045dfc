/** What getFormattedTx reads out of the logs of a transaction: the addresses involved, the amount,
    the automatically claimed reward, and the deposit jobs it dispatches.

    How an amount attribute becomes a coin is a parameter; CoinString says what it is. */
module EventFold {
  import opened Decimal
  import opened LogPlaces
  import opened Occurrences
  import opened Options
  import opened Paging

  datatype Fields<C> = Fields(addresses: seq<string>, amount: Option<C>, reward: Option<C>)

  // ---- the fold, attribute by attribute ----

  function Read<C>(f: Fields<C>, item: Item, coin: string -> C): Fields<C> {
    if item.role.Address? then f.(addresses := PushNew(f.addresses, item.value))
    else if IsAmount(item) then
      var c := coin(item.value);
      var held := if f.amount.None? then Some(c) else f.amount;
      f.(amount := if Replaces(item) then Some(c) else held,
         reward := if item.role.UnbondAmount? then held else f.reward)
    else f
  }

  function ReadAll<C>(start: Fields<C>, items: seq<Item>, coin: string -> C): Fields<C> {
    if items == [] then start
    else Read(ReadAll(start, items[..|items| - 1], coin), items[|items| - 1], coin)
  }

  function Start<C>(seed: seq<string>): Fields<C> {
    Fields(seed, None, None)
  }

  lemma {:induction false} ReadAllAppend<C>(start: Fields<C>, items: seq<Item>, more: seq<Item>, coin: string -> C)
    ensures ReadAll(start, items + more, coin) == ReadAll(ReadAll(start, items, coin), more, coin)
  {
    if more == [] {
      assert items + more == items;
    } else {
      assert (items + more)[..|items + more| - 1] == items + more[..|more| - 1];
      ReadAllAppend(start, items, more[..|more| - 1], coin);
    }
  }

  // ---- what the result is, without running the fold ----

  ghost predicate LastReplacing(items: seq<Item>, i: int) {
    0 <= i < |items| && Replaces(items[i]) && forall j :: i < j < |items| ==> !Replaces(items[j])
  }

  ghost predicate LastUnbond(items: seq<Item>, i: int) {
    0 <= i < |items| && items[i].role.UnbondAmount? && forall j :: i < j < |items| ==> !items[j].role.UnbondAmount?
  }

  ghost predicate FirstAmount(items: seq<Item>, i: int) {
    0 <= i < |items| && IsAmount(items[i]) && forall j :: 0 <= j < i ==> !IsAmount(items[j])
  }

  ghost predicate NoReplacing(items: seq<Item>) {
    forall j :: 0 <= j < |items| ==> !Replaces(items[j])
  }

  ghost predicate NoAmount(items: seq<Item>) {
    forall j :: 0 <= j < |items| ==> !IsAmount(items[j])
  }

  /** The amount is the last replacing one; without any, the first amount at all; else nothing. */
  ghost predicate AmountSpec<C>(items: seq<Item>, coin: string -> C, amount: Option<C>) {
    && (forall i :: LastReplacing(items, i) ==> amount == Some(coin(items[i].value)))
    && (NoReplacing(items) ==> forall i :: FirstAmount(items, i) ==> amount == Some(coin(items[i].value)))
    && (NoAmount(items) ==> amount == None)
  }

  /** The reward is what was held right before the i-th item, or that item's amount when nothing was held. */
  ghost predicate RewardAt<C(!new)>(items: seq<Item>, coin: string -> C, reward: Option<C>, i: int)
    requires 0 <= i < |items|
  {
    forall held :: AmountSpec(items[..i], coin, held)
                   ==> reward == if held.Some? then held else Some(coin(items[i].value))
  }

  ghost predicate NoUnbond(items: seq<Item>) {
    forall j :: 0 <= j < |items| ==> !items[j].role.UnbondAmount?
  }

  /** The reward is that of the last unbond amount, and absent without one. */
  ghost predicate RewardSpec<C(!new)>(items: seq<Item>, coin: string -> C, reward: Option<C>) {
    && (forall i :: LastUnbond(items, i) ==> RewardAt(items, coin, reward, i))
    && (NoUnbond(items) ==> reward == None)
  }

  function AddressValues(items: seq<Item>): seq<string> {
    if items == [] then []
    else
      var item := items[|items| - 1];
      AddressValues(items[..|items| - 1]) + if item.role.Address? then [item.value] else []
  }

  // ---- the fold meets the description ----

  lemma {:induction false} AddressesAreFirstOccurrences<C>(seed: seq<string>, items: seq<Item>, coin: string -> C)
    requires NoRepeat(seed)
    ensures FirstOccurrences(seed + AddressValues(items), ReadAll(Start(seed), items, coin).addresses)
  {
    if items == [] {
      assert seed + AddressValues(items) == seed;
      AlreadyFirst(seed);
    } else {
      var before, item := items[..|items| - 1], items[|items| - 1];
      AddressesAreFirstOccurrences(seed, before, coin);
      if item.role.Address? {
        FirstOccurrencesPush(seed + AddressValues(before), ReadAll(Start(seed), before, coin).addresses, item.value);
        assert (seed + AddressValues(before)) + [item.value] == seed + AddressValues(items);
      } else {
        assert AddressValues(items) == AddressValues(before);
      }
    }
  }

  lemma EarlierReplacing(items: seq<Item>, i: int)
    requires LastReplacing(items, i) && i < |items| - 1
    ensures LastReplacing(items[..|items| - 1], i) && !Replaces(items[|items| - 1])
  {
    var before := items[..|items| - 1];
    assert forall j :: 0 <= j < |before| ==> before[j] == items[j];
  }

  lemma EarlierFirst(items: seq<Item>, i: int)
    requires FirstAmount(items, i) && i < |items| - 1
    ensures FirstAmount(items[..|items| - 1], i)
  {
    var before := items[..|items| - 1];
    assert forall j :: 0 <= j < |before| ==> before[j] == items[j];
  }

  lemma NoneGrows(items: seq<Item>)
    requires items != []
    ensures NoAmount(items) <==> NoAmount(items[..|items| - 1]) && !IsAmount(items[|items| - 1])
    ensures NoReplacing(items) <==> NoReplacing(items[..|items| - 1]) && !Replaces(items[|items| - 1])
  {
    var before := items[..|items| - 1];
    assert forall j :: 0 <= j < |before| ==> before[j] == items[j];
  }

  /** A first amount that is the last item has none before it. */
  lemma FirstIsLast(items: seq<Item>)
    requires items != [] && FirstAmount(items, |items| - 1)
    ensures NoAmount(items[..|items| - 1])
  {
  }

  lemma AmountGrows<C>(items: seq<Item>, f: Fields<C>, coin: string -> C)
    requires items != []
    requires AmountSpec(items[..|items| - 1], coin, f.amount) && (f.amount.None? <==> NoAmount(items[..|items| - 1]))
    ensures AmountSpec(items, coin, Read(f, items[|items| - 1], coin).amount)
    ensures Read(f, items[|items| - 1], coin).amount.None? <==> NoAmount(items)
  {
    var n := |items| - 1;
    var before, item := items[..n], items[n];
    var amount := Read(f, item, coin).amount;
    NoneGrows(items);
    forall i | LastReplacing(items, i)
      ensures amount == Some(coin(items[i].value))
    {
      if i < n { EarlierReplacing(items, i); }
    }
    if NoReplacing(items) {
      forall i | FirstAmount(items, i)
        ensures amount == Some(coin(items[i].value))
      {
        if i < n { EarlierFirst(items, i); } else { FirstIsLast(items); }
      }
    }
  }

  lemma {:induction false} AmountMeetsSpec<C>(seed: seq<string>, items: seq<Item>, coin: string -> C)
    ensures AmountSpec(items, coin, ReadAll(Start(seed), items, coin).amount)
    ensures ReadAll(Start(seed), items, coin).amount.None? <==> NoAmount(items)
  {
    if items != [] {
      var before := items[..|items| - 1];
      AmountMeetsSpec(seed, before, coin);
      AmountGrows(items, ReadAll(Start(seed), before, coin), coin);
    }
  }

  /** The description of the amount leaves one value only. */
  lemma AmountSpecUnique<C>(items: seq<Item>, coin: string -> C, a: Option<C>, b: Option<C>)
    requires AmountSpec(items, coin, a) && AmountSpec(items, coin, b)
    ensures a == b
  {
    if !NoReplacing(items) {
      var i := LastReplacingExists(items);
    } else if !NoAmount(items) {
      var i := FirstAmountExists(items);
    }
  }

  lemma {:induction false} LastReplacingExists(items: seq<Item>) returns (i: int)
    requires !NoReplacing(items)
    ensures LastReplacing(items, i)
  {
    i := |items| - 1;
    if !Replaces(items[i]) {
      var j :| 0 <= j < |items| && Replaces(items[j]);
      assert items[..i][j] == items[j];
      i := LastReplacingExists(items[..i]);
    }
  }

  lemma {:induction false} FirstAmountExists(items: seq<Item>) returns (i: int)
    requires !NoAmount(items)
    ensures FirstAmount(items, i)
  {
    var before := items[..|items| - 1];
    if !NoAmount(before) {
      i := FirstAmountExists(before);
    } else {
      i := |items| - 1;
      assert forall j :: 0 <= j < i ==> before[j] == items[j];
    }
  }

  lemma EarlierUnbond(items: seq<Item>, i: int)
    requires LastUnbond(items, i) && i < |items| - 1
    ensures var before := items[..|items| - 1];
            && LastUnbond(before, i) && before[i] == items[i] && before[..i] == items[..i]
            && !items[|items| - 1].role.UnbondAmount?
  {
    var before := items[..|items| - 1];
    assert forall j :: 0 <= j < |before| ==> before[j] == items[j];
  }

  lemma RewardAtSame<C(!new)>(before: seq<Item>, items: seq<Item>, coin: string -> C, reward: Option<C>, i: int)
    requires 0 <= i < |before| && i < |items| && before[i] == items[i] && before[..i] == items[..i]
    requires RewardAt(before, coin, reward, i)
    ensures RewardAt(items, coin, reward, i)
  {
  }

  /** The last unbond amount is an earlier one: the reward stays. */
  lemma RewardStays<C(!new)>(items: seq<Item>, f: Fields<C>, coin: string -> C, i: int)
    requires items != [] && RewardSpec(items[..|items| - 1], coin, f.reward)
    requires LastUnbond(items, i) && i < |items| - 1
    ensures RewardAt(items, coin, Read(f, items[|items| - 1], coin).reward, i)
  {
    EarlierUnbond(items, i);
    RewardAtSame(items[..|items| - 1], items, coin, f.reward, i);
  }

  /** The newest amount is an unbond amount: the reward is what was held. */
  lemma RewardIsHeld<C(!new)>(items: seq<Item>, f: Fields<C>, coin: string -> C)
    requires items != [] && items[|items| - 1].role.UnbondAmount?
    requires AmountSpec(items[..|items| - 1], coin, f.amount)
    ensures RewardAt(items, coin, Read(f, items[|items| - 1], coin).reward, |items| - 1)
  {
    var n := |items| - 1;
    forall held | AmountSpec(items[..n], coin, held)
      ensures Read(f, items[n], coin).reward == if held.Some? then held else Some(coin(items[n].value))
    {
      AmountSpecUnique(items[..n], coin, held, f.amount);
    }
  }

  lemma NoUnbondNoReward<C(!new)>(items: seq<Item>, f: Fields<C>, coin: string -> C)
    requires items != [] && RewardSpec(items[..|items| - 1], coin, f.reward) && NoUnbond(items)
    ensures Read(f, items[|items| - 1], coin).reward == None
  {
    var before := items[..|items| - 1];
    assert forall j :: 0 <= j < |before| ==> before[j] == items[j];
    assert NoUnbond(before);
  }

  lemma RewardGrows<C(!new)>(items: seq<Item>, f: Fields<C>, coin: string -> C)
    requires items != []
    requires AmountSpec(items[..|items| - 1], coin, f.amount) && RewardSpec(items[..|items| - 1], coin, f.reward)
    ensures RewardSpec(items, coin, Read(f, items[|items| - 1], coin).reward)
  {
    var n := |items| - 1;
    forall i | LastUnbond(items, i)
      ensures RewardAt(items, coin, Read(f, items[n], coin).reward, i)
    {
      if i < n { RewardStays(items, f, coin, i); } else { RewardIsHeld(items, f, coin); }
    }
    if NoUnbond(items) {
      NoUnbondNoReward(items, f, coin);
    }
  }

  lemma {:induction false} RewardMeetsSpec<C(!new)>(seed: seq<string>, items: seq<Item>, coin: string -> C)
    ensures RewardSpec(items, coin, ReadAll(Start(seed), items, coin).reward)
  {
    if items != [] {
      var before := items[..|items| - 1];
      AmountMeetsSpec(seed, before, coin);
      RewardMeetsSpec(seed, before, coin);
      RewardGrows(items, ReadAll(Start(seed), before, coin), coin);
    }
  }

  // ---- the result told from the logs themselves ----

  ghost predicate AddressAt(logs: seq<Log>, p: Place) {
    IsPlace(logs, p) && AttributeAt(logs, p).key in {"sender", "recipient", "validator"}
  }

  ghost predicate AmountAt(logs: seq<Log>, p: Place) {
    IsPlace(logs, p) && AttributeAt(logs, p).key == "amount"
  }

  ghost predicate RelevantAt(logs: seq<Log>, p: Place) {
    AmountAt(logs, p) && KindAt(logs, p) in {"delegate", "unbond", "withdraw_rewards"}
  }

  ghost predicate UnbondAt(logs: seq<Log>, p: Place) {
    AmountAt(logs, p) && KindAt(logs, p) == "unbond"
  }

  /** What the attribute of a place is read as, in terms of its key and the kind of its event. */
  lemma RoleAtPlace(logs: seq<Log>, p: Place)
    requires IsPlace(logs, p)
    ensures var item := ItemOf(KindAt(logs, p), AttributeAt(logs, p));
            && (item.role.Address? <==> AddressAt(logs, p))
            && (IsAmount(item) <==> AmountAt(logs, p))
            && (Replaces(item) <==> RelevantAt(logs, p))
            && (item.role.UnbondAmount? <==> UnbondAt(logs, p))
            && item.value == AttributeAt(logs, p).value
  {
  }

  /** The same of the item at its index. */
  lemma RoleAtIndex(logs: seq<Log>, p: Place)
    requires IsPlace(logs, p)
    ensures IndexOf(logs, p) < |Items(logs)|
    ensures var item := Items(logs)[IndexOf(logs, p)];
            && (item.role.Address? <==> AddressAt(logs, p))
            && (IsAmount(item) <==> AmountAt(logs, p))
            && (Replaces(item) <==> RelevantAt(logs, p))
            && (item.role.UnbondAmount? <==> UnbondAt(logs, p))
            && item.value == AttributeAt(logs, p).value
  {
    ItemAtPlace(logs, p);
    RoleAtPlace(logs, p);
  }

  /** The list holds the seed and the value of every address attribute of every event of every log. */
  ghost predicate AddressesOf(seed: seq<string>, logs: seq<Log>, addresses: seq<string>) {
    forall a :: a in addresses <==> a in seed || exists p :: AddressAt(logs, p) && AttributeAt(logs, p).value == a
  }

  lemma {:induction false} InAddressValues(items: seq<Item>, a: string)
    ensures a in AddressValues(items) <==> exists i :: 0 <= i < |items| && items[i].role.Address? && items[i].value == a
  {
    if items != [] {
      var n := |items| - 1;
      InAddressValues(items[..n], a);
      assert forall i :: 0 <= i < n ==> items[..n][i] == items[i];
    }
  }

  lemma AddressesFromLogs(seed: seq<string>, logs: seq<Log>, addresses: seq<string>)
    requires FirstOccurrences(seed + AddressValues(Items(logs)), addresses)
    ensures AddressesOf(seed, logs, addresses)
  {
    var items := Items(logs);
    forall a
      ensures a in addresses <==> a in seed || exists p :: AddressAt(logs, p) && AttributeAt(logs, p).value == a
    {
      ListedIff(seed + AddressValues(items), addresses, a);
      InAddressValues(items, a);
      if i :| 0 <= i < |items| && items[i].role.Address? && items[i].value == a {
        var p := PlaceOfItem(logs, i);
        RoleAtIndex(logs, p);
        assert AddressAt(logs, p) && AttributeAt(logs, p).value == a;
      }
      if p :| AddressAt(logs, p) && AttributeAt(logs, p).value == a {
        RoleAtIndex(logs, p);
      }
    }
  }

  lemma ListedIff(values: seq<string>, r: seq<string>, a: string)
    requires FirstOccurrences(values, r)
    ensures a in r <==> a in values
  {
  }

  /** Addresses stand in the order in which they first appear: those of the seed, then each one before the
      others that appear after it. */
  ghost predicate InOrderOf(seed: seq<string>, logs: seq<Log>, addresses: seq<string>) {
    forall i, j :: 0 <= i < j < |addresses| ==>
      addresses[i] in seed || (addresses[j] !in seed && AppearsBefore(logs, addresses[i], addresses[j]))
  }

  /** Some place names a, and all that name b come after it. */
  ghost predicate AppearsBefore(logs: seq<Log>, a: string, b: string) {
    exists p :: AddressAt(logs, p) && AttributeAt(logs, p).value == a
                && forall q :: AddressAt(logs, q) && AttributeAt(logs, q).value == b ==> Earlier(p, q)
  }

  lemma {:induction false} AddressValuesPrefix(items: seq<Item>, i: nat)
    requires i <= |items|
    ensures AddressValues(items[..i]) <= AddressValues(items)
    decreases |items| - i
  {
    if i == |items| {
      assert items[..i] == items;
    } else {
      assert items[..i + 1][..i] == items[..i];
      AddressValuesPrefix(items, i + 1);
    }
  }

  /** An address item gives the value that follows those of the items before it. */
  lemma ValueOfItem(items: seq<Item>, i: nat)
    requires i < |items| && items[i].role.Address?
    ensures |AddressValues(items[..i])| < |AddressValues(items)|
    ensures AddressValues(items)[|AddressValues(items[..i])|] == items[i].value
  {
    var k := |AddressValues(items[..i])|;
    assert items[..i + 1][..i] == items[..i];
    assert AddressValues(items[..i + 1])[k] == items[i].value;
    AddressValuesPrefix(items, i + 1);
  }

  lemma {:induction false} ItemOfValue(items: seq<Item>, k: nat) returns (i: nat)
    requires k < |AddressValues(items)|
    ensures i < |items| && items[i].role.Address? && |AddressValues(items[..i])| == k
  {
    var n := |items| - 1;
    if k < |AddressValues(items[..n])| {
      i := ItemOfValue(items[..n], k);
      assert items[..n][..i] == items[..i];
    } else {
      i := n;
    }
  }

  lemma MoreItemsMoreValues(items: seq<Item>, j: nat, i: nat)
    requires j <= i <= |items|
    ensures |AddressValues(items[..j])| <= |AddressValues(items[..i])|
  {
    AddressValuesPrefix(items[..i], j);
    assert items[..i][..j] == items[..j];
  }

  lemma FewerBefore(items: seq<Item>, i: nat, j: nat)
    requires i <= |items| && j <= |items| && |AddressValues(items[..i])| < |AddressValues(items[..j])|
    ensures i < j
  {
    if j <= i { MoreItemsMoreValues(items, j, i); }
  }

  lemma SeedComesFirst(seed: seq<string>, rest: seq<string>, a: string)
    requires a in seed + rest
    ensures a in seed <==> FirstIndex(seed + rest, a) < |seed|
  {
    var values := seed + rest;
    var f := FirstIndex(values, a);
    assert f < |seed| ==> seed[f] == a;
    if a in seed {
      var l :| 0 <= l < |seed| && seed[l] == a;
      assert values[l] == a;
    }
  }

  lemma AppearsFirst(seed: seq<string>, logs: seq<Log>, a: string, b: string)
    requires a !in seed && a in seed + AddressValues(Items(logs)) && b in seed + AddressValues(Items(logs))
    requires var values := seed + AddressValues(Items(logs)); FirstIndex(values, a) < FirstIndex(values, b)
    ensures b !in seed && AppearsBefore(logs, a, b)
  {
    var items := Items(logs);
    var values := seed + AddressValues(items);
    SeedComesFirst(seed, AddressValues(items), a);
    SeedComesFirst(seed, AddressValues(items), b);
    var k := FirstIndex(values, a) - |seed|;
    var i := ItemOfValue(items, k);
    var p := PlaceOfItem(logs, i);
    RoleAtIndex(logs, p);
    ValueOfItem(items, i);
    forall q | AddressAt(logs, q) && AttributeAt(logs, q).value == b
      ensures Earlier(p, q)
    {
      RoleAtIndex(logs, q);
      var j := IndexOf(logs, q);
      ValueOfItem(items, j);
      assert values[|seed| + |AddressValues(items[..j])|] == b;
      FewerBefore(items, i, j);
      IndexInOrder(logs, p, q);
    }
  }

  lemma OrderFromLogs(seed: seq<string>, logs: seq<Log>, addresses: seq<string>)
    requires FirstOccurrences(seed + AddressValues(Items(logs)), addresses)
    ensures InOrderOf(seed, logs, addresses)
  {
    forall i, j | 0 <= i < j < |addresses| && addresses[i] !in seed
      ensures addresses[j] !in seed && AppearsBefore(logs, addresses[i], addresses[j])
    {
      AppearsFirst(seed, logs, addresses[i], addresses[j]);
    }
  }

  ghost predicate LastRelevantAt(logs: seq<Log>, p: Place) {
    RelevantAt(logs, p) && forall q :: RelevantAt(logs, q) ==> !Earlier(p, q)
  }

  ghost predicate FirstAmountAt(logs: seq<Log>, p: Place) {
    AmountAt(logs, p) && forall q :: AmountAt(logs, q) ==> !Earlier(q, p)
  }

  /** The amount is the last one of a delegate, unbond or withdraw_rewards event; without any, the first
      amount of all; without that, none. */
  ghost predicate AmountOf<C>(logs: seq<Log>, coin: string -> C, amount: Option<C>) {
    && (forall p :: LastRelevantAt(logs, p) ==> amount == Some(coin(AttributeAt(logs, p).value)))
    && ((forall q :: !RelevantAt(logs, q)) ==>
          forall p :: FirstAmountAt(logs, p) ==> amount == Some(coin(AttributeAt(logs, p).value)))
    && ((forall q :: !AmountAt(logs, q)) ==> amount == None)
  }

  lemma LastRelevantItem(logs: seq<Log>, p: Place)
    requires LastRelevantAt(logs, p)
    ensures LastReplacing(Items(logs), IndexOf(logs, p))
    ensures Items(logs)[IndexOf(logs, p)].value == AttributeAt(logs, p).value
  {
    RoleAtIndex(logs, p);
    forall j | IndexOf(logs, p) < j < |Items(logs)|
      ensures !Replaces(Items(logs)[j])
    {
      var q := PlaceOfItem(logs, j);
      IndexInOrder(logs, p, q);
      RoleAtIndex(logs, q);
    }
  }

  lemma FirstAmountItem(logs: seq<Log>, p: Place)
    requires FirstAmountAt(logs, p)
    ensures FirstAmount(Items(logs), IndexOf(logs, p))
    ensures Items(logs)[IndexOf(logs, p)].value == AttributeAt(logs, p).value
  {
    RoleAtIndex(logs, p);
    forall j | 0 <= j < IndexOf(logs, p)
      ensures !IsAmount(Items(logs)[j])
    {
      var q := PlaceOfItem(logs, j);
      IndexInOrder(logs, q, p);
      RoleAtIndex(logs, q);
    }
  }

  lemma NoRelevantItem(logs: seq<Log>)
    requires forall q :: !RelevantAt(logs, q)
    ensures NoReplacing(Items(logs))
  {
    forall j | 0 <= j < |Items(logs)|
      ensures !Replaces(Items(logs)[j])
    {
      var q := PlaceOfItem(logs, j);
      RoleAtIndex(logs, q);
    }
  }

  lemma NoAmountItem(logs: seq<Log>)
    requires forall q :: !AmountAt(logs, q)
    ensures NoAmount(Items(logs))
  {
    forall j | 0 <= j < |Items(logs)|
      ensures !IsAmount(Items(logs)[j])
    {
      var q := PlaceOfItem(logs, j);
      RoleAtIndex(logs, q);
    }
  }

  lemma AmountFromLogs<C>(logs: seq<Log>, coin: string -> C, amount: Option<C>)
    requires AmountSpec(Items(logs), coin, amount)
    ensures AmountOf(logs, coin, amount)
  {
    forall p | LastRelevantAt(logs, p)
      ensures amount == Some(coin(AttributeAt(logs, p).value))
    {
      LastRelevantItem(logs, p);
    }
    if forall q :: !RelevantAt(logs, q) {
      NoRelevantItem(logs);
      forall p | FirstAmountAt(logs, p)
        ensures amount == Some(coin(AttributeAt(logs, p).value))
      {
        FirstAmountItem(logs, p);
      }
    }
    if forall q :: !AmountAt(logs, q) {
      NoAmountItem(logs);
    }
  }

  ghost predicate LastUnbondAt(logs: seq<Log>, p: Place) {
    UnbondAt(logs, p) && forall q :: UnbondAt(logs, q) ==> !Earlier(p, q)
  }

  /** The last relevant amount before p. */
  ghost predicate LastRelevantBefore(logs: seq<Log>, p: Place, q: Place) {
    RelevantAt(logs, q) && Earlier(q, p) && forall r :: RelevantAt(logs, r) && Earlier(r, p) ==> !Earlier(q, r)
  }

  /** The reward comes from the last unbond amount, at p: it is the last relevant amount before p; without
      any, the first amount of all, which may be the one at p. Without an unbond amount there is none. */
  ghost predicate RewardOf<C>(logs: seq<Log>, coin: string -> C, reward: Option<C>) {
    && (forall p, q :: LastUnbondAt(logs, p) && LastRelevantBefore(logs, p, q)
                       ==> reward == Some(coin(AttributeAt(logs, q).value)))
    && (forall p, q :: LastUnbondAt(logs, p) && FirstAmountAt(logs, q)
                       && (forall r :: RelevantAt(logs, r) ==> !Earlier(r, p))
                       ==> reward == Some(coin(AttributeAt(logs, q).value)))
    && ((forall p :: !UnbondAt(logs, p)) ==> reward == None)
  }

  lemma LastUnbondItem(logs: seq<Log>, p: Place)
    requires LastUnbondAt(logs, p)
    ensures LastUnbond(Items(logs), IndexOf(logs, p))
    ensures Items(logs)[IndexOf(logs, p)].value == AttributeAt(logs, p).value
  {
    RoleAtIndex(logs, p);
    forall j | IndexOf(logs, p) < j < |Items(logs)|
      ensures !Items(logs)[j].role.UnbondAmount?
    {
      var q := PlaceOfItem(logs, j);
      IndexInOrder(logs, p, q);
      RoleAtIndex(logs, q);
    }
  }

  /** Among the items before p the last relevant one is that of q. */
  lemma LastRelevantItemBefore(logs: seq<Log>, p: Place, q: Place)
    requires IsPlace(logs, p) && LastRelevantBefore(logs, p, q)
    ensures IndexOf(logs, p) <= |Items(logs)| && IndexOf(logs, q) < IndexOf(logs, p)
    ensures LastReplacing(Items(logs)[..IndexOf(logs, p)], IndexOf(logs, q))
    ensures Items(logs)[IndexOf(logs, q)].value == AttributeAt(logs, q).value
  {
    RoleAtIndex(logs, p);
    RoleAtIndex(logs, q);
    IndexInOrder(logs, q, p);
    forall j | IndexOf(logs, q) < j < IndexOf(logs, p)
      ensures !Replaces(Items(logs)[j])
    {
      var r := PlaceOfItem(logs, j);
      IndexInOrder(logs, q, r);
      IndexInOrder(logs, r, p);
      RoleAtIndex(logs, r);
    }
  }

  lemma NoRelevantItemBefore(logs: seq<Log>, p: Place)
    requires IsPlace(logs, p) && forall r :: RelevantAt(logs, r) ==> !Earlier(r, p)
    ensures IndexOf(logs, p) <= |Items(logs)| && NoReplacing(Items(logs)[..IndexOf(logs, p)])
  {
    RoleAtIndex(logs, p);
    forall j | 0 <= j < IndexOf(logs, p)
      ensures !Replaces(Items(logs)[j])
    {
      var r := PlaceOfItem(logs, j);
      IndexInOrder(logs, r, p);
      RoleAtIndex(logs, r);
    }
  }

  /** Some value meets the description. */
  lemma HeldExists<C>(items: seq<Item>, coin: string -> C) returns (held: Option<C>)
    ensures AmountSpec(items, coin, held) && (held.None? <==> NoAmount(items))
  {
    AmountMeetsSpec([], items, coin);
    held := ReadAll(Start([]), items, coin).amount;
  }

  lemma RewardAfterRelevant<C(!new)>(logs: seq<Log>, coin: string -> C, reward: Option<C>, p: Place, q: Place)
    requires RewardSpec(Items(logs), coin, reward) && LastUnbondAt(logs, p) && LastRelevantBefore(logs, p, q)
    ensures reward == Some(coin(AttributeAt(logs, q).value))
  {
    LastUnbondItem(logs, p);
    LastRelevantItemBefore(logs, p, q);
    var before := Items(logs)[..IndexOf(logs, p)];
    var held := HeldExists(before, coin);
    assert before[IndexOf(logs, q)] == Items(logs)[IndexOf(logs, q)];
    assert RewardAt(Items(logs), coin, reward, IndexOf(logs, p));
  }

  lemma RewardWithoutRelevant<C(!new)>(logs: seq<Log>, coin: string -> C, reward: Option<C>, p: Place, q: Place)
    requires RewardSpec(Items(logs), coin, reward) && LastUnbondAt(logs, p) && FirstAmountAt(logs, q)
    requires forall r :: RelevantAt(logs, r) ==> !Earlier(r, p)
    ensures reward == Some(coin(AttributeAt(logs, q).value))
  {
    LastUnbondItem(logs, p);
    FirstAmountItem(logs, q);
    NoRelevantItemBefore(logs, p);
    var i, j := IndexOf(logs, p), IndexOf(logs, q);
    var items := Items(logs);
    var held := HeldExists(items[..i], coin);
    assert RewardAt(items, coin, reward, i);
    IndexInOrder(logs, p, q);
    if j < i {
      assert FirstAmount(items[..i], j) && items[..i][j] == items[j];
    } else {
      assert j == i;
      assert NoAmount(items[..i]);
    }
  }

  lemma NoUnbondItem(logs: seq<Log>)
    requires forall q :: !UnbondAt(logs, q)
    ensures NoUnbond(Items(logs))
  {
    forall j | 0 <= j < |Items(logs)|
      ensures !Items(logs)[j].role.UnbondAmount?
    {
      var q := PlaceOfItem(logs, j);
      RoleAtIndex(logs, q);
    }
  }

  lemma RewardFromLogs<C(!new)>(logs: seq<Log>, coin: string -> C, reward: Option<C>)
    requires RewardSpec(Items(logs), coin, reward)
    ensures RewardOf(logs, coin, reward)
  {
    forall p, q | LastUnbondAt(logs, p) && LastRelevantBefore(logs, p, q)
      ensures reward == Some(coin(AttributeAt(logs, q).value))
    {
      RewardAfterRelevant(logs, coin, reward, p, q);
    }
    forall p, q | LastUnbondAt(logs, p) && FirstAmountAt(logs, q) && forall r :: RelevantAt(logs, r) ==> !Earlier(r, p)
      ensures reward == Some(coin(AttributeAt(logs, q).value))
    {
      RewardWithoutRelevant(logs, coin, reward, p, q);
    }
    if forall q :: !UnbondAt(logs, q) {
      NoUnbondItem(logs);
    }
  }

  // ---- deposit jobs ----

  /** The payload of a job for the deposit queue, its numbers still in text form. */
  datatype DepositJob = DepositJob(depositId: string, poolId: Option<string>, withdrawalId: Option<string>, height: nat)

  /** What the identifier of a job is built from; RenderIsInjective shows that nothing is lost by keeping
      it in two parts. */
  datatype DepositKey = DepositKey(depositId: string, height: nat)

  type DepositQueue = map<DepositKey, DepositJob>

  function KeyOf(job: DepositJob): DepositKey {
    DepositKey(job.depositId, job.height)
  }

  function Render(key: DepositKey): string {
    "millions-deposit-" + (key.depositId + ("-" + Print(key.height)))
  }

  lemma LastDashUnique(s: string, u: string, t: string, v: string)
    requires '-' !in u && '-' !in v && s + ("-" + u) == t + ("-" + v)
    ensures s == t && u == v
  {
    var w, x := s + ("-" + u), t + ("-" + v);
    assert w[|s|] == '-' && x[|t|] == '-';
    assert forall i :: |s| < i < |w| ==> w[i] == u[i - |s| - 1];
    assert forall i :: |t| < i < |x| ==> x[i] == v[i - |t| - 1];
    assert |s| == |t|;
    assert s == w[..|s|] == x[..|t|] == t;
    assert u == w[|s| + 1..] == x[|t| + 1..] == v;
  }

  /** The identifier tells the deposit and the height, even when the text of the deposit holds dashes. */
  lemma RenderIsInjective(k: DepositKey, l: DepositKey)
    requires Render(k) == Render(l)
    ensures k == l
  {
    CancelPrefix("millions-deposit-", k.depositId + ("-" + Print(k.height)), l.depositId + ("-" + Print(l.height)));
    NumeralHasNoDash(k.height);
    NumeralHasNoDash(l.height);
    LastDashUnique(k.depositId, Print(k.height), l.depositId, Print(l.height));
    assert Print(k.height) + "" == Print(l.height) + "";
    PrintIsPrefixCode(k.height, "", l.height, "");
  }

  /** The value of the first attribute with the key. */
  function Find(attributes: seq<Attribute>, key: string): (r: Option<string>)
    ensures r.Some? <==> exists i :: 0 <= i < |attributes| && attributes[i].key == key
    ensures r.Some? ==> exists i :: 0 <= i < |attributes| && attributes[i] == Attribute(key, r.value)
                                    && forall j :: 0 <= j < i ==> attributes[j].key != key
  {
    if attributes == [] then None
    else
      var n := |attributes| - 1;
      var before := Find(attributes[..n], key);
      assert forall i :: 0 <= i < n ==> attributes[..n][i] == attributes[i];
      if before.Some? then before
      else if attributes[n].key == key then
        assert attributes[n] == Attribute(key, attributes[n].value);
        Some(attributes[n].value)
      else None
  }

  /** An empty text counts as absent. */
  function NonEmpty(o: Option<string>): Option<string> {
    if o.Some? && o.value == "" then None else o
  }

  /** The job an event offers to the deposit queue, if it is about a deposit. */
  function OfferOf(e: Event, height: nat): Option<DepositJob> {
    var id, pool := Find(e.attributes, "deposit_id"), Find(e.attributes, "pool_id");
    if && (e.kind == "deposit" || e.kind == "withdraw_deposit" || e.kind == "deposit_edit")
       && pool.Some? && id.Some? && Find(e.attributes, "depositor").Some?
    then Some(DepositJob(id.value, NonEmpty(pool), NonEmpty(Find(e.attributes, "withdrawal_id")), height))
    else None
  }

  ghost predicate FirstAt(attributes: seq<Attribute>, key: string, i: int) {
    0 <= i < |attributes| && attributes[i].key == key && forall j :: 0 <= j < i ==> attributes[j].key != key
  }

  /** The attribute with the key that comes first has the value v. */
  ghost predicate FirstValue(attributes: seq<Attribute>, key: string, v: string) {
    exists i :: FirstAt(attributes, key, i) && attributes[i].value == v
  }

  ghost predicate Has(attributes: seq<Attribute>, key: string) {
    exists i :: 0 <= i < |attributes| && attributes[i].key == key
  }

  /** The number an attribute gives: the text that comes first under the key, unless it is empty. */
  ghost predicate NumberOf(attributes: seq<Attribute>, key: string, number: Option<string>) {
    && (forall v :: FirstValue(attributes, key, v) ==> number == if v == "" then None else Some(v))
    && (!Has(attributes, key) ==> number == None)
  }

  /** Which events offer a job, and what is in it. */
  lemma OfferMeaning(e: Event, height: nat)
    ensures OfferOf(e, height).Some?
            <==> e.kind in {"deposit", "withdraw_deposit", "deposit_edit"}
                 && Has(e.attributes, "pool_id") && Has(e.attributes, "deposit_id") && Has(e.attributes, "depositor")
    ensures OfferOf(e, height).Some? ==>
              var job := OfferOf(e, height).value;
              && job.height == height && FirstValue(e.attributes, "deposit_id", job.depositId)
              && NumberOf(e.attributes, "pool_id", job.poolId)
              && NumberOf(e.attributes, "withdrawal_id", job.withdrawalId)
  {
    FindMeaning(e.attributes, "pool_id");
    FindMeaning(e.attributes, "deposit_id");
    FindMeaning(e.attributes, "withdrawal_id");
    FindMeaning(e.attributes, "depositor");
  }

  lemma FindMeaning(attributes: seq<Attribute>, key: string)
    ensures Find(attributes, key).Some? <==> Has(attributes, key)
    ensures Find(attributes, key).Some? ==> FirstValue(attributes, key, Find(attributes, key).value)
    ensures NumberOf(attributes, key, NonEmpty(Find(attributes, key)))
  {
    var r := Find(attributes, key);
    forall v | FirstValue(attributes, key, v)
      ensures r == Some(v)
    {
      var i :| FirstAt(attributes, key, i) && attributes[i].value == v;
      var k :| 0 <= k < |attributes| && attributes[k] == Attribute(key, r.value)
               && forall j :: 0 <= j < k ==> attributes[j].key != key;
      assert i == k;
    }
    if r.Some? {
      var k :| 0 <= k < |attributes| && attributes[k] == Attribute(key, r.value)
               && forall j :: 0 <= j < k ==> attributes[j].key != key;
      assert FirstAt(attributes, key, k);
    }
  }

  function Offers(events: seq<Event>, height: nat): seq<DepositJob> {
    if events == [] then []
    else
      var last := OfferOf(events[|events| - 1], height);
      Offers(events[..|events| - 1], height) + if last.Some? then [last.value] else []
  }

  function AddDeposit(q: DepositQueue, job: DepositJob): DepositQueue {
    if KeyOf(job) in q then q else q[KeyOf(job) := job]
  }

  function AddDeposits(q: DepositQueue, jobs: seq<DepositJob>): DepositQueue {
    if jobs == [] then q else AddDeposit(AddDeposits(q, jobs[..|jobs| - 1]), jobs[|jobs| - 1])
  }

  lemma OffersOfOne(e: Event, height: nat)
    ensures Offers([e], height) == if OfferOf(e, height).Some? then [OfferOf(e, height).value] else []
  {
    assert [e][..0] == [];
  }

  lemma AddOneDeposit(q: DepositQueue, job: DepositJob)
    ensures AddDeposits(q, [job]) == AddDeposit(q, job) && AddDeposits(q, []) == q
  {
    assert [job][..0] == [];
  }

  ghost predicate FirstWithKey(jobs: seq<DepositJob>, key: DepositKey, i: int) {
    0 <= i < |jobs| && KeyOf(jobs[i]) == key && forall j :: 0 <= j < i ==> KeyOf(jobs[j]) != key
  }

  /** For each deposit and height the queue keeps what it knew, else the first offer: later events of
      the block about the same deposit are dropped. */
  lemma {:induction false} FirstOfferWins(q: DepositQueue, jobs: seq<DepositJob>)
    ensures forall k :: k in q ==> k in AddDeposits(q, jobs) && AddDeposits(q, jobs)[k] == q[k]
    ensures forall k, i :: k !in q && FirstWithKey(jobs, k, i)
                           ==> k in AddDeposits(q, jobs) && AddDeposits(q, jobs)[k] == jobs[i]
    ensures forall k :: k in AddDeposits(q, jobs) ==> k in q || exists i :: 0 <= i < |jobs| && KeyOf(jobs[i]) == k
  {
    if jobs != [] {
      var n := |jobs| - 1;
      var before := jobs[..n];
      var v, u := AddDeposits(q, before), AddDeposits(q, jobs);
      FirstOfferWins(q, before);
      forall k, i | k !in q && FirstWithKey(jobs, k, i)
        ensures k in u && u[k] == jobs[i]
      {
        if i < n {
          assert FirstWithKey(before, k, i);
        } else {
          assert forall j :: 0 <= j < n ==> before[j] == jobs[j];
          assert k !in v;
        }
      }
      forall k | k in u && k !in q
        ensures exists i :: 0 <= i < |jobs| && KeyOf(jobs[i]) == k
      {
        if k in v {
          var i :| 0 <= i < n && KeyOf(before[i]) == k;
          assert KeyOf(jobs[i]) == k;
        } else {
          assert KeyOf(jobs[n]) == k;
        }
      }
    }
  }

  lemma {:induction false} FirstOfKey(jobs: seq<DepositJob>, key: DepositKey, i: int) returns (f: int)
    requires 0 <= i < |jobs| && KeyOf(jobs[i]) == key
    ensures FirstWithKey(jobs, key, f) && f <= i
    decreases i
  {
    if j :| 0 <= j < i && KeyOf(jobs[j]) == key {
      f := FirstOfKey(jobs, key, j);
    } else {
      f := i;
    }
  }

  /** The i-th job gets into the queue, rather than being ignored. */
  predicate Enters(q: DepositQueue, jobs: seq<DepositJob>, i: int)
    requires 0 <= i < |jobs|
  {
    KeyOf(jobs[i]) !in AddDeposits(q, jobs[..i])
  }

  lemma EntersIffFirst(q: DepositQueue, jobs: seq<DepositJob>, i: int)
    requires 0 <= i < |jobs|
    ensures Enters(q, jobs, i) <==> KeyOf(jobs[i]) !in q && FirstWithKey(jobs, KeyOf(jobs[i]), i)
  {
    var key, before := KeyOf(jobs[i]), jobs[..i];
    FirstOfferWins(q, before);
    assert forall j :: 0 <= j < i ==> before[j] == jobs[j];
    if j :| 0 <= j < i && KeyOf(jobs[j]) == key {
      assert KeyOf(before[j]) == key;
      var f := FirstOfKey(before, key, j);
      assert key in q || key in AddDeposits(q, before);
    }
  }

  /** From any queue: a job gets in iff the queue did not know its deposit at that height and no earlier
      event of the block was about it. What is stored in the end is the job that got in, else what the
      queue knew, else the job of the first such event. */
  lemma OfferEntersIffFirst(q: DepositQueue, jobs: seq<DepositJob>, i: int)
    requires 0 <= i < |jobs|
    ensures Enters(q, jobs, i) <==> KeyOf(jobs[i]) !in q && FirstWithKey(jobs, KeyOf(jobs[i]), i)
    ensures KeyOf(jobs[i]) in AddDeposits(q, jobs)
    ensures Enters(q, jobs, i) ==> AddDeposits(q, jobs)[KeyOf(jobs[i])] == jobs[i]
    ensures KeyOf(jobs[i]) in q ==> AddDeposits(q, jobs)[KeyOf(jobs[i])] == q[KeyOf(jobs[i])]
    ensures KeyOf(jobs[i]) !in q ==> exists f :: FirstWithKey(jobs, KeyOf(jobs[i]), f) && f <= i
                                                 && AddDeposits(q, jobs)[KeyOf(jobs[i])] == jobs[f]
  {
    var key := KeyOf(jobs[i]);
    EntersIffFirst(q, jobs, i);
    FirstOfferWins(q, jobs);
    var f := FirstOfKey(jobs, key, i);
    assert key !in q ==> AddDeposits(q, jobs)[key] == jobs[f];
  }

  /** The events of a deposit and of its withdrawal, as a block may hold both. */
  function DepositEvent(id: string, pool: string, depositor: string): Event {
    Event("deposit", [Attribute("pool_id", pool), Attribute("deposit_id", id), Attribute("depositor", depositor)])
  }

  function WithdrawEvent(id: string, pool: string, depositor: string, withdrawal: string): Event {
    Event("withdraw_deposit", [Attribute("pool_id", pool), Attribute("deposit_id", id),
                               Attribute("withdrawal_id", withdrawal), Attribute("depositor", depositor)])
  }

  lemma FindHere(attributes: seq<Attribute>, key: string, i: int)
    requires 0 <= i < |attributes| && attributes[i].key == key
    requires forall j :: 0 <= j < |attributes| && j != i ==> attributes[j].key != key
    ensures Find(attributes, key) == Some(attributes[i].value)
  {
  }

  lemma OfferOfDeposit(id: string, pool: string, depositor: string, height: nat)
    requires pool != ""
    ensures OfferOf(DepositEvent(id, pool, depositor), height) == Some(DepositJob(id, Some(pool), None, height))
  {
    var a := DepositEvent(id, pool, depositor).attributes;
    FindHere(a, "pool_id", 0);
    FindHere(a, "deposit_id", 1);
    FindHere(a, "depositor", 2);
    assert Find(a, "withdrawal_id").None?;
  }

  lemma OfferOfWithdrawal(id: string, pool: string, depositor: string, withdrawal: string, height: nat)
    requires pool != "" && withdrawal != ""
    ensures OfferOf(WithdrawEvent(id, pool, depositor, withdrawal), height)
            == Some(DepositJob(id, Some(pool), Some(withdrawal), height))
  {
    var a := WithdrawEvent(id, pool, depositor, withdrawal).attributes;
    FindHere(a, "pool_id", 0);
    FindHere(a, "deposit_id", 1);
    FindHere(a, "withdrawal_id", 2);
    FindHere(a, "depositor", 3);
  }

  lemma OffersOfTwo(e: Event, d: Event, height: nat)
    requires OfferOf(e, height).Some? && OfferOf(d, height).Some?
    ensures Offers([e, d], height) == [OfferOf(e, height).value, OfferOf(d, height).value]
  {
    OffersOfOne(e, height);
    OffersOfOne(d, height);
    OffersAppend([e], [d], height);
    assert [e] + [d] == [e, d];
  }

  lemma SecondOfTwoIsDropped(first: DepositJob, second: DepositJob)
    requires KeyOf(first) == KeyOf(second)
    ensures AddDeposits(map[], [first, second]) == map[KeyOf(first) := first]
  {
    var jobs := [first];
    assert jobs[..0] == [];
    assert AddDeposits(map[], jobs) == map[KeyOf(first) := first];
    assert [first, second][..1] == jobs;
  }

  /** A deposit that is made and withdrawn in one block: the job of the withdrawal is dropped, and the one
      that stays has no withdrawal identifier. */
  lemma WithdrawalInSameBlockIsLost(id: string, pool: string, depositor: string, withdrawal: string, height: nat)
    requires pool != "" && withdrawal != ""
    ensures var events := [DepositEvent(id, pool, depositor), WithdrawEvent(id, pool, depositor, withdrawal)];
            && Offers(events, height) == [DepositJob(id, Some(pool), None, height),
                                          DepositJob(id, Some(pool), Some(withdrawal), height)]
            && AddDeposits(map[], Offers(events, height))
               == map[DepositKey(id, height) := DepositJob(id, Some(pool), None, height)]
  {
    OfferOfDeposit(id, pool, depositor, height);
    OfferOfWithdrawal(id, pool, depositor, withdrawal, height);
    var first, second := DepositJob(id, Some(pool), None, height), DepositJob(id, Some(pool), Some(withdrawal), height);
    OffersOfTwo(DepositEvent(id, pool, depositor), WithdrawEvent(id, pool, depositor, withdrawal), height);
    SecondOfTwoIsDropped(first, second);
  }

  // ---- the addresses of a failed transaction ----

  datatype Field = Field(name: string, value: string)

  datatype Message = Message(typeUrl: string, fields: seq<Field>)

  const MSG_EXEC: string := "/cosmos.authz.v1beta1.MsgExec"

  const SIGNER_FIELDS: set<string> :=
    {"sender", "recipient", "validator", "fromAddress", "delegatorAddress", "granter", "voter", "proposer", "depositor",
     "depositorAddress"}

  predicate NamesSigner(m: Message, f: Field) {
    if m.typeUrl == MSG_EXEC then f.name == "grantee" else f.name in SIGNER_FIELDS
  }

  /** The first field of m that names a signer is the i-th. */
  ghost predicate SignerAt(m: Message, i: int) {
    && 0 <= i < |m.fields| && NamesSigner(m, m.fields[i])
    && forall j :: 0 <= j < i ==> !NamesSigner(m, m.fields[j])
  }

  ghost predicate HasSigner(m: Message) {
    exists i :: 0 <= i < |m.fields| && NamesSigner(m, m.fields[i])
  }

  /** At most one address: that of the first signer field of the first message that has one. */
  ghost predicate IsSeed(messages: seq<Message>, seed: seq<string>) {
    && |seed| <= 1
    && (seed == [] <==> forall m :: 0 <= m < |messages| ==> !HasSigner(messages[m]))
    && (forall m, i :: 0 <= m < |messages| && SignerAt(messages[m], i)
                       && (forall l :: 0 <= l < m ==> !HasSigner(messages[l]))
                       ==> seed == [messages[m].fields[i].value])
  }

  lemma SeedIs(messages: seq<Message>, m: int, i: int)
    requires 0 <= m < |messages| && SignerAt(messages[m], i)
    requires forall l :: 0 <= l < m ==> !HasSigner(messages[l])
    ensures IsSeed(messages, [messages[m].fields[i].value])
  {
    assert HasSigner(messages[m]);
    forall n, j | 0 <= n < |messages| && SignerAt(messages[n], j) && forall l :: 0 <= l < n ==> !HasSigner(messages[l])
      ensures n == m && j == i
    {
      assert HasSigner(messages[n]);
    }
  }

  lemma NoSeed(messages: seq<Message>)
    requires forall m :: 0 <= m < |messages| ==> !HasSigner(messages[m])
    ensures IsSeed(messages, [])
  {
    forall m, i | 0 <= m < |messages|
      ensures !SignerAt(messages[m], i)
    {
      assert !HasSigner(messages[m]);
    }
  }

  /** Which field of a message names a signer: grantee in an executed authorisation, else one of ten. */
  lemma SignerFields(m: Message, f: Field)
    ensures m.typeUrl == "/cosmos.authz.v1beta1.MsgExec" ==> (NamesSigner(m, f) <==> f.name == "grantee")
    ensures m.typeUrl != "/cosmos.authz.v1beta1.MsgExec" ==>
              (NamesSigner(m, f) <==>
                 || f.name == "sender" || f.name == "recipient" || f.name == "validator" || f.name == "fromAddress"
                 || f.name == "delegatorAddress" || f.name == "granter" || f.name == "voter" || f.name == "proposer"
                 || f.name == "depositor" || f.name == "depositorAddress")
  {
  }

  method AddressesRelatedToTransaction(messages: seq<Message>) returns (addresses: seq<string>)
    ensures IsSeed(messages, addresses)
  {
    addresses := [];
    for m := 0 to |messages|
      invariant addresses == []
      invariant forall l :: 0 <= l < m ==> !HasSigner(messages[l])
    {
      var message := messages[m];
      for i := 0 to |message.fields|
        invariant addresses == []
        invariant forall j :: 0 <= j < i ==> !NamesSigner(message, message.fields[j])
      {
        if NamesSigner(message, message.fields[i]) {
          addresses := addresses + [message.fields[i].value];
          SeedIs(messages, m, i);
          break;
        }
      }
      if addresses != [] {
        return;
      }
    }
    NoSeed(messages);
  }

  // ---- the loops of the source ----

  /** Reads one attribute into the fields. */
  method ReadAttribute<C>(start: Fields<C>, kind: string, attribute: Attribute, coin: string -> C)
      returns (res: Fields<C>)
    ensures res == Read(start, ItemOf(kind, attribute), coin)
  {
    res := start;
    if attribute.key == "sender" || attribute.key == "recipient" || attribute.key == "validator" {
      if attribute.value !in res.addresses {
        res := res.(addresses := res.addresses + [attribute.value]);
      }
    } else if attribute.key == "amount" {
      var c := coin(attribute.value);
      if res.amount.None? {
        res := res.(amount := Some(c));
      }
      if kind == "unbond" {
        res := res.(reward := res.amount);
      }
      if kind == "delegate" || kind == "unbond" || kind == "withdraw_rewards" {
        res := res.(amount := Some(c));
      }
    }
  }

  lemma ReadOneMore<C>(start: Fields<C>, items: seq<Item>, item: Item, coin: string -> C)
    ensures ReadAll(start, items + [item], coin) == Read(ReadAll(start, items, coin), item, coin)
  {
    assert (items + [item])[..|items|] == items;
  }

  lemma OneMoreAttribute<C>(start: Fields<C>, kind: string, attributes: seq<Attribute>, a: nat, coin: string -> C)
    requires a < |attributes|
    ensures ReadAll(start, AttributeItems(kind, attributes[..a + 1]), coin)
            == Read(ReadAll(start, AttributeItems(kind, attributes[..a]), coin), ItemOf(kind, attributes[a]), coin)
  {
    assert attributes[..a + 1][..a] == attributes[..a];
    ReadOneMore(start, AttributeItems(kind, attributes[..a]), ItemOf(kind, attributes[a]), coin);
  }

  /** Reads the attributes of one event into the fields. */
  method ReadAttributes<C>(start: Fields<C>, event: Event, coin: string -> C) returns (res: Fields<C>)
    ensures res == ReadAll(start, AttributeItems(event.kind, event.attributes), coin)
  {
    res := start;
    for a := 0 to |event.attributes|
      invariant res == ReadAll(start, AttributeItems(event.kind, event.attributes[..a]), coin)
    {
      OneMoreAttribute(start, event.kind, event.attributes, a, coin);
      res := ReadAttribute(res, event.kind, event.attributes[a], coin);
    }
    assert event.attributes[..|event.attributes|] == event.attributes;
  }

  /** Adds the job of one event to the deposit queue, if the event is about a deposit. */
  method OfferDeposit(queue: DepositQueue, event: Event, height: nat) returns (q: DepositQueue)
    ensures q == AddDeposits(queue, Offers([event], height))
  {
    q := queue;
    OffersOfOne(event, height);
    var offer := OfferOf(event, height);
    if offer.Some? {
      AddOneDeposit(queue, offer.value);
      if KeyOf(offer.value) !in q {
        q := q[KeyOf(offer.value) := offer.value];
      }
    }
  }

  /** Reads the logs of one transaction. The queue of deposit jobs is updated on the way. */
  method ReadLogs<C(!new)>(seed: seq<string>, logs: seq<Log>, coin: string -> C, height: nat, queue: DepositQueue)
      returns (res: Fields<C>, deposits: DepositQueue)
    requires NoRepeat(seed)
    ensures FirstOccurrences(seed + AddressValues(Items(logs)), res.addresses)
    ensures AmountSpec(Items(logs), coin, res.amount)
    ensures RewardSpec(Items(logs), coin, res.reward)
    ensures AddressesOf(seed, logs, res.addresses) && InOrderOf(seed, logs, res.addresses) && NoRepeat(res.addresses)
    ensures AmountOf(logs, coin, res.amount) && RewardOf(logs, coin, res.reward)
    ensures deposits == AddDeposits(queue, Offers(Concat(logs), height))
  {
    res := Start(seed);
    deposits := queue;
    for l := 0 to |logs|
      invariant res == ReadAll(Start(seed), Items(logs[..l]), coin)
      invariant deposits == AddDeposits(queue, Offers(Concat(logs[..l]), height))
    {
      res, deposits := ReadLog(res, logs[l], coin, height, deposits);
      assert logs[..l + 1][..l] == logs[..l];
      ReadAllAppend(Start(seed), Items(logs[..l]), LogItems(logs[l]), coin);
      OffersAppend(Concat(logs[..l]), logs[l], height);
      AddDepositsAppend(queue, Offers(Concat(logs[..l]), height), Offers(logs[l], height));
    }
    assert logs[..|logs|] == logs;
    AddressesAreFirstOccurrences(seed, Items(logs), coin);
    AmountMeetsSpec(seed, Items(logs), coin);
    RewardMeetsSpec(seed, Items(logs), coin);
    AddressesFromLogs(seed, logs, res.addresses);
    OrderFromLogs(seed, logs, res.addresses);
    AmountFromLogs(logs, coin, res.amount);
    RewardFromLogs(logs, coin, res.reward);
  }

  method ReadLog<C>(start: Fields<C>, log: Log, coin: string -> C, height: nat, queue: DepositQueue)
      returns (res: Fields<C>, deposits: DepositQueue)
    ensures res == ReadAll(start, LogItems(log), coin)
    ensures deposits == AddDeposits(queue, Offers(log, height))
  {
    res := start;
    deposits := queue;
    for v := 0 to |log|
      invariant res == ReadAll(start, LogItems(log[..v]), coin)
      invariant deposits == AddDeposits(queue, Offers(log[..v], height))
    {
      res := ReadAttributes(res, log[v], coin);
      deposits := OfferDeposit(deposits, log[v], height);
      assert log[..v + 1][..v] == log[..v] && log[..v + 1] == log[..v] + [log[v]];
      ReadAllAppend(start, LogItems(log[..v]), AttributeItems(log[v].kind, log[v].attributes), coin);
      OffersAppend(log[..v], [log[v]], height);
      AddDepositsAppend(queue, Offers(log[..v], height), Offers([log[v]], height));
    }
    assert log[..|log|] == log;
  }

  /** The addresses, amount, reward and deposit jobs of one transaction. A failed transaction starts
      with the address its messages name; no address is ever listed twice. */
  method FormatTx<C(!new)>(messages: seq<Message>, success: bool, logs: seq<Log>, coin: string -> C, height: nat,
                           queue: DepositQueue)
      returns (res: Fields<C>, deposits: DepositQueue)
    ensures exists seed :: (if success then seed == [] else IsSeed(messages, seed))
                           && FirstOccurrences(seed + AddressValues(Items(logs)), res.addresses)
                           && AddressesOf(seed, logs, res.addresses) && InOrderOf(seed, logs, res.addresses)
    ensures NoRepeat(res.addresses)
    ensures AmountSpec(Items(logs), coin, res.amount) && RewardSpec(Items(logs), coin, res.reward)
    ensures AmountOf(logs, coin, res.amount) && RewardOf(logs, coin, res.reward)
    ensures deposits == AddDeposits(queue, Offers(Concat(logs), height))
  {
    var seed := [];
    if !success {
      seed := AddressesRelatedToTransaction(messages);
    }
    res, deposits := ReadLogs(seed, logs, coin, height, queue);
  }

  lemma {:induction false} OffersAppend(events: seq<Event>, more: seq<Event>, height: nat)
    ensures Offers(events + more, height) == Offers(events, height) + Offers(more, height)
  {
    if more == [] {
      assert events + more == events;
    } else {
      assert (events + more)[..|events + more| - 1] == events + more[..|more| - 1];
      OffersAppend(events, more[..|more| - 1], height);
    }
  }

  lemma {:induction false} AddDepositsAppend(q: DepositQueue, jobs: seq<DepositJob>, more: seq<DepositJob>)
    ensures AddDeposits(q, jobs + more) == AddDeposits(AddDeposits(q, jobs), more)
  {
    if more == [] {
      assert jobs + more == jobs;
    } else {
      assert (jobs + more)[..|jobs + more| - 1] == jobs + more[..|more| - 1];
      AddDepositsAppend(q, jobs, more[..|more| - 1]);
    }
  }
}
