/** The logs of a transaction as nested lists, and the places of their attributes in reading order. */
module LogPlaces {

  datatype Attribute = Attribute(key: string, value: string)

  datatype Event = Event(kind: string, attributes: seq<Attribute>)

  type Log = seq<Event>

  // ---- what an attribute is read as ----

  /** PlainAmount is an amount of any other kind of event. */
  datatype Role = Address | PlainAmount | RelevantAmount | UnbondAmount | Ignored

  datatype Item = Item(role: Role, value: string)

  function RoleOf(kind: string, key: string): Role {
    if key == "sender" || key == "recipient" || key == "validator" then Address
    else if key != "amount" then Ignored
    else if kind == "unbond" then UnbondAmount
    else if kind == "delegate" || kind == "withdraw_rewards" then RelevantAmount
    else PlainAmount
  }

  function ItemOf(kind: string, a: Attribute): Item {
    Item(RoleOf(kind, a.key), a.value)
  }

  predicate IsAmount(item: Item) {
    item.role.PlainAmount? || item.role.RelevantAmount? || item.role.UnbondAmount?
  }

  /** An amount that replaces whatever amount was held. */
  predicate Replaces(item: Item) {
    item.role.RelevantAmount? || item.role.UnbondAmount?
  }

  // ---- the attributes of all logs, in reading order ----

  function AttributeItems(kind: string, attributes: seq<Attribute>): seq<Item> {
    if attributes == [] then []
    else AttributeItems(kind, attributes[..|attributes| - 1]) + [ItemOf(kind, attributes[|attributes| - 1])]
  }

  function LogItems(log: Log): seq<Item> {
    if log == [] then []
    else LogItems(log[..|log| - 1]) + AttributeItems(log[|log| - 1].kind, log[|log| - 1].attributes)
  }

  function Items(logs: seq<Log>): seq<Item> {
    if logs == [] then [] else Items(logs[..|logs| - 1]) + LogItems(logs[|logs| - 1])
  }

  // ---- places ----

  /** A place in the logs: which log, which event of it, which attribute of that. */
  datatype Place = Place(log: nat, event: nat, attribute: nat)

  ghost predicate IsPlace(logs: seq<Log>, p: Place) {
    p.log < |logs| && p.event < |logs[p.log]| && p.attribute < |logs[p.log][p.event].attributes|
  }

  function KindAt(logs: seq<Log>, p: Place): string
    requires IsPlace(logs, p)
  {
    logs[p.log][p.event].kind
  }

  function AttributeAt(logs: seq<Log>, p: Place): Attribute
    requires IsPlace(logs, p)
  {
    logs[p.log][p.event].attributes[p.attribute]
  }

  /** Reading order: logs, in a log its events, in an event its attributes. */
  predicate Earlier(p: Place, q: Place) {
    || p.log < q.log
    || (p.log == q.log && p.event < q.event)
    || (p.log == q.log && p.event == q.event && p.attribute < q.attribute)
  }

  /** How many attributes are read before the place. */
  function IndexOf(logs: seq<Log>, p: Place): nat
    requires IsPlace(logs, p)
  {
    |Items(logs[..p.log])| + |LogItems(logs[p.log][..p.event])| + p.attribute
  }

  lemma {:induction false} AttributeItemsAt(kind: string, attributes: seq<Attribute>)
    ensures |AttributeItems(kind, attributes)| == |attributes|
    ensures forall i :: 0 <= i < |attributes| ==> AttributeItems(kind, attributes)[i] == ItemOf(kind, attributes[i])
  {
    if attributes != [] {
      AttributeItemsAt(kind, attributes[..|attributes| - 1]);
    }
  }

  lemma OneMoreEvent(log: Log, e: nat)
    requires e < |log|
    ensures LogItems(log[..e + 1]) == LogItems(log[..e]) + AttributeItems(log[e].kind, log[e].attributes)
    ensures |LogItems(log[..e + 1])| == |LogItems(log[..e])| + |log[e].attributes|
  {
    assert log[..e + 1][..e] == log[..e];
    AttributeItemsAt(log[e].kind, log[e].attributes);
  }

  lemma {:induction false} LogItemsPrefix(log: Log, e: nat)
    requires e <= |log|
    ensures LogItems(log[..e]) <= LogItems(log)
    decreases |log| - e
  {
    if e == |log| {
      assert log[..e] == log;
    } else {
      OneMoreEvent(log, e);
      LogItemsPrefix(log, e + 1);
    }
  }

  lemma OneMoreLog(logs: seq<Log>, l: nat)
    requires l < |logs|
    ensures Items(logs[..l + 1]) == Items(logs[..l]) + LogItems(logs[l])
  {
    assert logs[..l + 1][..l] == logs[..l];
  }

  lemma {:induction false} ItemsPrefix(logs: seq<Log>, l: nat)
    requires l <= |logs|
    ensures Items(logs[..l]) <= Items(logs)
    decreases |logs| - l
  {
    if l == |logs| {
      assert logs[..l] == logs;
    } else {
      OneMoreLog(logs, l);
      ItemsPrefix(logs, l + 1);
    }
  }

  lemma WithinPrefix<T>(before: seq<T>, part: seq<T>, whole: seq<T>, j: nat)
    requires before + part <= whole && j < |part|
    ensures |before| + j < |whole| && whole[|before| + j] == part[j]
  {
    assert (before + part)[|before| + j] == part[j];
  }

  lemma LogItemAt(log: Log, e: nat, a: nat)
    requires e < |log| && a < |log[e].attributes|
    ensures |LogItems(log[..e])| + a < |LogItems(log)|
    ensures LogItems(log)[|LogItems(log[..e])| + a] == ItemOf(log[e].kind, log[e].attributes[a])
  {
    OneMoreEvent(log, e);
    AttributeItemsAt(log[e].kind, log[e].attributes);
    LogItemsPrefix(log, e + 1);
    WithinPrefix(LogItems(log[..e]), AttributeItems(log[e].kind, log[e].attributes), LogItems(log), a);
  }

  lemma LogWithin(logs: seq<Log>, l: nat)
    requires l < |logs|
    ensures Items(logs[..l]) + LogItems(logs[l]) <= Items(logs)
  {
    OneMoreLog(logs, l);
    ItemsPrefix(logs, l + 1);
  }

  lemma ItemWithin(before: seq<Item>, part: seq<Item>, whole: seq<Item>, k: nat, a: nat, item: Item)
    requires before + part <= whole && k + a < |part| && part[k + a] == item
    ensures |before| + k + a < |whole| && whole[|before| + k + a] == item
  {
    WithinPrefix(before, part, whole, k + a);
  }

  lemma ItemAt(logs: seq<Log>, l: nat, log: Log, e: nat, event: Event, a: nat)
    requires l < |logs| && log == logs[l] && e < |log| && event == log[e] && a < |event.attributes|
    ensures |Items(logs[..l])| + |LogItems(log[..e])| + a < |Items(logs)|
    ensures Items(logs)[|Items(logs[..l])| + |LogItems(log[..e])| + a] == ItemOf(event.kind, event.attributes[a])
  {
    LogWithin(logs, l);
    LogItemAt(log, e, a);
    ItemWithin(Items(logs[..l]), LogItems(log), Items(logs), |LogItems(log[..e])|, a,
               ItemOf(event.kind, event.attributes[a]));
  }

  /** Each attribute is read: at its index the list holds just what it is read as. */
  lemma ItemAtPlace(logs: seq<Log>, p: Place)
    requires IsPlace(logs, p)
    ensures IndexOf(logs, p) < |Items(logs)|
    ensures Items(logs)[IndexOf(logs, p)] == ItemOf(KindAt(logs, p), AttributeAt(logs, p))
  {
    ItemAt(logs, p.log, logs[p.log], p.event, logs[p.log][p.event], p.attribute);
  }

  lemma {:induction false} EventOfItem(log: Log, i: nat) returns (e: nat)
    requires i < |LogItems(log)|
    ensures e < |log| && |LogItems(log[..e])| <= i < |LogItems(log[..e])| + |log[e].attributes|
  {
    var n := |log| - 1;
    if i < |LogItems(log[..n])| {
      e := EventOfItem(log[..n], i);
      assert log[..n][..e] == log[..e];
    } else {
      e := n;
      AttributeItemsAt(log[n].kind, log[n].attributes);
    }
  }

  lemma {:induction false} LogOfItem(logs: seq<Log>, i: nat) returns (l: nat)
    requires i < |Items(logs)|
    ensures l < |logs| && |Items(logs[..l])| <= i < |Items(logs[..l])| + |LogItems(logs[l])|
  {
    var n := |logs| - 1;
    if i < |Items(logs[..n])| {
      l := LogOfItem(logs[..n], i);
      assert logs[..n][..l] == logs[..l];
    } else {
      l := n;
    }
  }

  /** Nothing else is read: every item stands at the index of a place. */
  lemma PlaceOfItem(logs: seq<Log>, i: nat) returns (p: Place)
    requires i < |Items(logs)|
    ensures IsPlace(logs, p) && IndexOf(logs, p) == i
  {
    var l := LogOfItem(logs, i);
    var j := i - |Items(logs[..l])|;
    var e := EventOfItem(logs[l], j);
    p := Place(l, e, j - |LogItems(logs[l][..e])|);
  }

  lemma EventsInOrder(log: Log, e: nat, f: nat)
    requires e < f <= |log|
    ensures |LogItems(log[..e])| + |log[e].attributes| <= |LogItems(log[..f])|
  {
    OneMoreEvent(log, e);
    LogItemsPrefix(log[..f], e + 1);
    assert log[..f][..e + 1] == log[..e + 1];
  }

  lemma LogsInOrder(logs: seq<Log>, l: nat, m: nat)
    requires l < m <= |logs|
    ensures |Items(logs[..l])| + |LogItems(logs[l])| <= |Items(logs[..m])|
  {
    OneMoreLog(logs, l);
    ItemsPrefix(logs[..m], l + 1);
    assert logs[..m][..l + 1] == logs[..l + 1];
  }

  lemma EarlierFirst(logs: seq<Log>, p: Place, q: Place)
    requires IsPlace(logs, p) && IsPlace(logs, q) && Earlier(p, q)
    ensures IndexOf(logs, p) < IndexOf(logs, q)
  {
    LogItemAt(logs[p.log], p.event, p.attribute);
    if p.log < q.log {
      LogsInOrder(logs, p.log, q.log);
    } else if p.event < q.event {
      EventsInOrder(logs[p.log], p.event, q.event);
    }
  }

  /** The items stand in reading order. */
  lemma IndexInOrder(logs: seq<Log>, p: Place, q: Place)
    requires IsPlace(logs, p) && IsPlace(logs, q)
    ensures Earlier(p, q) <==> IndexOf(logs, p) < IndexOf(logs, q)
  {
    if Earlier(p, q) {
      EarlierFirst(logs, p, q);
    } else if p != q {
      assert Earlier(q, p);
      EarlierFirst(logs, q, p);
    }
  }
}
