/** Interactive complex read 9, batch form: a container that keeps all messages at or above
    the limit-th largest date, so that ids need to be looked up only for those. */
module MessageContainer {
  import opened TopK
  import opened RecentMessages

  const SIZE_MAX := 0xFFFF_FFFF_FFFF_FFFF
  const DATE_LIMIT := 0x8000_0000_0000_0000

  /** An element of order_container: the date, and the vertex of the message. */
  datatype Item = Item(date: int, vertex: nat)

  function ItemOf(m: Message): Item {
    Item(m.date, m.vertex)
  }

  /** A signed value as size_t. */
  function Unsigned(x: int): int {
    if x < 0 then x + SIZE_MAX + 1 else x
  }

  ghost predicate Oldest(s: set<Item>, date: int) {
    (exists e :: e in s && e.date == date) && forall e :: e in s ==> date <= e.date
  }

  lemma {:induction false} OldestExists(s: set<Item>) returns (date: int)
    requires s != {}
    ensures Oldest(s, date)
  {
    var e :| e in s;
    var rest := s - {e};
    assert s == rest + {e};
    date := e.date;
    if rest != {} {
      var d := OldestExists(rest);
      if d < date {
        date := d;
      }
      assert exists e' :: e' in s && e'.date == date;
    }
  }

  lemma OldestWitness(s: set<Item>)
    requires s != {}
    ensures exists e :: e in s && forall m :: m in s ==> e.date <= m.date
  {
    var date := OldestExists(s);
  }

  /** The first element of the ordered set: one with the smallest date. */
  method Begin(s: set<Item>) returns (e: Item)
    requires s != {}
    ensures e in s && forall m :: m in s ==> e.date <= m.date
  {
    OldestWitness(s);
    e :| e in s && forall m :: m in s ==> e.date <= m.date;
  }

  ghost function AtDate(s: set<Item>, date: int): set<Item> {
    set e | e in s && e.date == date
  }

  /** `kept` is all of `seen` at or above the limit-th largest date. */
  ghost predicate TieComplete(kept: set<Item>, seen: set<Item>, limit: nat) {
    && kept <= seen && (kept == seen || limit <= |kept|)
    && (forall k, u :: k in kept && u in seen && u !in kept ==> u.date < k.date)
    && (forall date :: Oldest(kept, date) ==> |kept| - |AtDate(kept, date)| < limit)
  }

  ghost predicate Dated(s: set<Item>) {
    forall e :: e in s ==> 0 <= e.date < DATE_LIMIT
  }

  /** min_count and count_of_min_count describe the oldest date of the container. */
  ghost predicate Counted(kept: set<Item>, minDate: int, count: nat) {
    if kept == {} then minDate == SIZE_MAX && count == 0
    else Oldest(kept, minDate) && count == |AtDate(kept, minDate)|
  }

  lemma OldestUnique(s: set<Item>, a: int, b: int)
    requires Oldest(s, a) && Oldest(s, b)
    ensures a == b
  {
  }

  lemma AtDateAdd(s: set<Item>, e: Item, date: int)
    requires e !in s
    ensures |AtDate(s + {e}, date)| == |AtDate(s, date)| + if e.date == date then 1 else 0
  {
    if e.date == date {
      assert AtDate(s + {e}, date) == AtDate(s, date) + {e};
    } else {
      assert AtDate(s + {e}, date) == AtDate(s, date);
    }
  }

  lemma SubsetSize(a: set<Item>, b: set<Item>)
    requires a <= b
    ensures |a| <= |b| && (a != b ==> |a| < |b|) && |b - a| == |b| - |a|
  {
    assert b == a + (b - a);
    if a != b {
      var x :| x in b && x !in a;
      assert x in b - a;
    }
  }

  lemma MoveOne(todo: set<Item>, seen: set<Item>, item: Item)
    requires seen !! todo && item in todo
    ensures (seen + {item}) !! (todo - {item}) && seen + {item} + (todo - {item}) == seen + todo
    ensures |seen + {item}| == |seen| + 1 && |todo - {item}| < |todo|
  {
  }

  /** How many elements share the date of the first one: they stand together at the front. */
  method CountOldest(kept: set<Item>, minDate: int) returns (count: nat)
    requires Oldest(kept, minDate)
    ensures count == |AtDate(kept, minDate)|
  {
    count := 0;
    var todo := kept;
    ghost var seen: set<Item> := {};
    while todo != {}
      invariant seen !! todo && seen + todo == kept && count == |seen|
      invariant forall e :: e in seen ==> e.date == minDate
    {
      var item := Begin(todo);
      if item.date != minDate {
        break;
      }
      MoveOne(todo, seen, item);
      count := count + 1;
      todo := todo - {item};
      seen := seen + {item};
    }
    assert seen == AtDate(kept, minDate);
  }

  /** After a newer item the container is full without its oldest date: drop that date. */
  method DropOldest(kept: set<Item>, minDate: int) returns (rest: set<Item>, newMin: int, newCount: nat)
    requires Oldest(kept, minDate) && exists e :: e in kept && e.date > minDate
    ensures rest == kept - AtDate(kept, minDate) && Counted(rest, newMin, newCount) && rest != {} && minDate < newMin
  {
    rest := kept;
    ghost var newer :| newer in kept && newer.date > minDate;
    var first := Begin(rest);
    while first.date == minDate
      invariant newer in rest && rest <= kept
      invariant forall e :: e in kept && e !in rest ==> e.date == minDate
      invariant first in rest && forall m :: m in rest ==> first.date <= m.date
      decreases rest
    {
      rest := rest - {first};
      assert newer in rest;
      first := Begin(rest);
    }
    newMin := first.date;
    newCount := CountOldest(rest, newMin);
  }

  /** The container after the items `seen`, where full, has count fewer than limit items
      above its oldest date. */
  ghost predicate Holds(kept: set<Item>, minDate: int, count: nat, seen: set<Item>, limit: nat) {
    && kept <= seen && Dated(seen) && Counted(kept, minDate, count)
    && (|kept| < limit ==> kept == seen)
    && (forall u :: u in seen && u !in kept ==> u.date < minDate)
    && |kept| - count < limit
  }

  lemma HoldsComplete(kept: set<Item>, minDate: int, count: nat, seen: set<Item>, limit: nat)
    requires Holds(kept, minDate, count, seen, limit)
    ensures TieComplete(kept, seen, limit)
  {
    forall date | Oldest(kept, date)
      ensures |kept| - |AtDate(kept, date)| < limit
    {
      OldestUnique(kept, date, minDate);
    }
  }

  lemma TakeEqual(kept: set<Item>, minDate: int, count: nat, e: Item, seen: set<Item>, limit: nat)
    requires Holds(kept, minDate, count, seen, limit) && e !in seen && 0 <= e.date < DATE_LIMIT && e.date == minDate
    ensures Holds(kept + {e}, minDate, count + 1, seen + {e}, limit)
  {
    AtDateAdd(kept, e, minDate);
    assert e in kept + {e};
  }

  lemma TakeOlder(kept: set<Item>, minDate: int, count: nat, e: Item, seen: set<Item>, limit: nat)
    requires Holds(kept, minDate, count, seen, limit) && e !in seen && 0 <= e.date < minDate && e.date < DATE_LIMIT
    requires |kept| < limit
    ensures Holds(kept + {e}, e.date, 1, seen + {e}, limit)
  {
    assert AtDate(kept + {e}, e.date) == {e};
    assert e in kept + {e};
  }

  lemma TakeNewer(kept: set<Item>, minDate: int, count: nat, e: Item, seen: set<Item>, limit: nat)
    requires Holds(kept, minDate, count, seen, limit) && e !in seen && minDate < e.date < DATE_LIMIT && kept != {}
    requires |kept + {e}| - limit != count
    ensures Holds(kept + {e}, minDate, count, seen + {e}, limit)
  {
    AtDateAdd(kept, e, minDate);
    var o :| o in kept && o.date == minDate;
    assert o in kept + {e};
  }

  lemma TakeDrop(kept: set<Item>, minDate: int, count: nat, e: Item, seen: set<Item>, limit: nat,
                 rest: set<Item>, newMin: int, newCount: nat)
    requires Holds(kept, minDate, count, seen, limit) && e !in seen && minDate < e.date < DATE_LIMIT && kept != {}
    requires |kept + {e}| - limit == count && rest == kept + {e} - AtDate(kept + {e}, minDate)
    requires rest != {} && Counted(rest, newMin, newCount) && minDate < newMin
    ensures Holds(rest, newMin, newCount, seen + {e}, limit) && |rest| == limit
  {
    AtDateAdd(kept, e, minDate);
    SubsetSize(AtDate(kept + {e}, minDate), kept + {e});
    var o :| o in rest && o.date == newMin;
    assert o in AtDate(rest, newMin);
    assert |AtDate(rest, newMin)| > 0;
  }

  /** One message: the body of the inner loop once it has been let in. */
  method Take(kept: set<Item>, minDate: int, count: nat, e: Item, ghost seen: set<Item>, limit: nat)
    returns (kept': set<Item>, minDate': int, count': nat)
    requires Holds(kept, minDate, count, seen, limit) && e !in seen && 0 < limit < DATE_LIMIT
    requires 0 <= e.date < DATE_LIMIT
    requires |kept| < limit || Unsigned(e.date) >= minDate
    ensures Holds(kept', minDate', count', seen + {e}, limit)
    ensures limit <= |kept| ==> limit <= |kept'| && minDate <= minDate'
  {
    hide Holds, Oldest;
    Bounds(kept, minDate, count, seen, limit);
    kept', minDate', count' := kept + {e}, minDate, count;
    assert e !in kept && |kept + {e}| == |kept| + 1;
    if Unsigned(e.date) == minDate {
      count' := count + 1;
      TakeEqual(kept, minDate, count, e, seen, limit);
    } else if Unsigned(e.date) < minDate || minDate == SIZE_MAX - 1 {
      minDate', count' := e.date, 1;
      TakeOlder(kept, minDate, count, e, seen, limit);
    } else if Unsigned(|kept'| - limit) == count {
      OldestStays(kept, minDate, e);
      kept', minDate', count' := DropOldest(kept', minDate);
      TakeDrop(kept, minDate, count, e, seen, limit, kept', minDate', count');
    } else {
      TakeNewer(kept, minDate, count, e, seen, limit);
    }
  }

  lemma Bounds(kept: set<Item>, minDate: int, count: nat, seen: set<Item>, limit: nat)
    requires Holds(kept, minDate, count, seen, limit)
    ensures kept <= seen && count <= |kept| && minDate != SIZE_MAX - 1
    ensures if kept == {} then minDate == SIZE_MAX else 0 <= minDate < DATE_LIMIT && Oldest(kept, minDate)
  {
    SubsetSize(AtDate(kept, minDate), kept);
    if kept != {} {
      var o :| o in kept && o.date == minDate;
    }
  }

  lemma OldestStays(kept: set<Item>, minDate: int, e: Item)
    requires Oldest(kept, minDate) && minDate < e.date
    ensures Oldest(kept + {e}, minDate) && exists m :: m in kept + {e} && m.date > minDate
  {
    var o :| o in kept && o.date == minDate;
    assert o in kept + {e} && e in kept + {e};
  }

  // ---------------------------------------------------------------------------
  // All lists.

  ghost function WantedItems(list: seq<Message>, maxDate: int): set<Item> {
    set m | m in list && m.date < maxDate :: ItemOf(m)
  }

  ghost function AllItems(lists: seq<seq<Message>>, maxDate: int): set<Item> {
    if lists == [] then {} else AllItems(lists[..|lists| - 1], maxDate) + WantedItems(lists[|lists| - 1], maxDate)
  }

  /** Skipped items are older than everything in a container that is full. */
  ghost predicate AllOlder(kept: set<Item>, minDate: int, skipped: set<Item>, limit: nat) {
    (skipped != {} ==> limit <= |kept|) && forall d :: d in skipped ==> d.date < minDate
  }

  /** No message of the list is in `before` or occurs twice. */
  ghost predicate Fresh(list: seq<Message>, before: set<Item>) {
    && (forall i :: 0 <= i < |list| ==> ItemOf(list[i]) !in before && 0 <= list[i].date < DATE_LIMIT)
    && (forall i, j :: 0 <= i < j < |list| ==> ItemOf(list[i]) != ItemOf(list[j]))
  }

  lemma WantedMore(list: seq<Message>, maxDate: int, j: nat)
    requires j < |list|
    ensures WantedItems(list[..j + 1], maxDate)
         == WantedItems(list[..j], maxDate) + if list[j].date < maxDate then {ItemOf(list[j])} else {}
  {
    assert list[..j + 1] == list[..j] + [list[j]];
    forall m | m in list[..j + 1] && m.date < maxDate
      ensures ItemOf(m) in WantedItems(list[..j], maxDate) + if list[j].date < maxDate then {ItemOf(list[j])} else {}
    {
      assert m in list[..j] || m == list[j];
    }
  }

  lemma WantedSplit(list: seq<Message>, maxDate: int, j: nat)
    requires j <= |list|
    ensures WantedItems(list, maxDate) == WantedItems(list[..j], maxDate) + WantedItems(list[j..], maxDate)
  {
    assert list == list[..j] + list[j..];
    assert forall m :: m in list <==> m in list[..j] || m in list[j..];
  }

  lemma NotYet(list: seq<Message>, maxDate: int, before: set<Item>, j: nat)
    requires Fresh(list, before) && j < |list|
    ensures ItemOf(list[j]) !in before + WantedItems(list[..j], maxDate) && 0 <= list[j].date < DATE_LIMIT
  {
    assert forall m :: m in list[..j] ==> ItemOf(m) != ItemOf(list[j]);
  }

  lemma StopOlder(kept: set<Item>, minDate: int, list: seq<Message>, maxDate: int, j: nat, skipped: set<Item>,
                   limit: nat)
    requires AllOlder(kept, minDate, skipped, limit) && Descending(list, KeyOf) && j < |list|
    requires limit <= |kept| && list[j].date < minDate
    ensures AllOlder(kept, minDate, skipped + WantedItems(list[j..], maxDate), limit)
  {
    forall d | d in WantedItems(list[j..], maxDate)
      ensures d.date < minDate
    {
      var m :| m in list[j..] && ItemOf(m) == d;
      var i :| 0 <= i < |list[j..]| && list[j..][i] == m;
      assert list[j + i] == m;
    }
  }

  /** One list, newest first, up to the first message that is too old. */
  method CollectList(list: seq<Message>, maxDate: int, limit: nat, kept: set<Item>, minDate: int, count: nat,
                     ghost seen: set<Item>, ghost skipped: set<Item>)
    returns (kept': set<Item>, minDate': int, count': nat, ghost seen': set<Item>, ghost skipped': set<Item>)
    requires 0 < limit < DATE_LIMIT && Holds(kept, minDate, count, seen, limit)
    requires AllOlder(kept, minDate, skipped, limit)
    requires Descending(list, KeyOf) && Fresh(list, seen + skipped)
    ensures Holds(kept', minDate', count', seen', limit) && AllOlder(kept', minDate', skipped', limit)
    ensures seen' + skipped' == seen + skipped + WantedItems(list, maxDate)
  {
    hide Holds, Descending, Fresh, WantedItems;
    kept', minDate', count', seen', skipped' := kept, minDate, count, seen, skipped;
    var j, flag := 0, true;
    assert list[..0] == [] && list[0..] == list;
    WantedSplit(list, maxDate, 0);
    assert WantedItems(list[..0], maxDate) == {} by { NothingWantedYet(maxDate); }
    while j < |list| && flag
      invariant j <= |list|
      invariant Holds(kept', minDate', count', seen', limit) && AllOlder(kept', minDate', skipped', limit)
      invariant seen' + skipped' == seen + skipped + WantedItems(if flag then list[..j] else list, maxDate)
    {
      var m := list[j];
      WantedMore(list, maxDate, j);
      NotYet(list, maxDate, seen + skipped, j);
      Bounds(kept', minDate', count', seen', limit);
      if m.date < maxDate {
        if |kept'| < limit || Unsigned(m.date) >= minDate' {
          kept', minDate', count' := Take(kept', minDate', count', ItemOf(m), seen', limit);
          seen' := seen' + {ItemOf(m)};
        } else {
          flag := false;
          StopOlder(kept', minDate', list, maxDate, j, skipped', limit);
          WantedSplit(list, maxDate, j);
          skipped' := skipped' + WantedItems(list[j..], maxDate);
        }
      }
      j := j + 1;
    }
    assert list[..|list|] == list;
  }

  lemma NothingWantedYet(maxDate: int)
    ensures WantedItems([], maxDate) == {}
  {
  }

  /** Every message is in one place of one list, with a date that fits an int64. */
  ghost predicate AllFresh(lists: seq<seq<Message>>, maxDate: int) {
    forall i :: 0 <= i < |lists| ==> Fresh(lists[i], AllItems(lists[..i], maxDate))
  }

  /** The container after all lists: everything at or above the limit-th largest date. */
  method Collect(lists: seq<seq<Message>>, maxDate: int, limit: nat) returns (container: set<Item>)
    requires 0 < limit < DATE_LIMIT && AllFresh(lists, maxDate)
    requires forall list :: list in lists ==> Descending(list, KeyOf)
    ensures TieComplete(container, AllItems(lists, maxDate), limit)
  {
    hide Holds, Descending, Fresh, TieComplete;
    var minDate, count := SIZE_MAX, 0;
    ghost var seen: set<Item>, skipped: set<Item> := {}, {};
    container := {};
    EmptyHolds(limit);
    var i := 0;
    while i < |lists|
      invariant i <= |lists|
      invariant Holds(container, minDate, count, seen, limit) && AllOlder(container, minDate, skipped, limit)
      invariant seen + skipped == AllItems(lists[..i], maxDate)
    {
      container, minDate, count, seen, skipped :=
        CollectList(lists[i], maxDate, limit, container, minDate, count, seen, skipped);
      assert lists[..i + 1][..i] == lists[..i];
      i := i + 1;
    }
    assert lists[..i] == lists;
    OlderComplete(container, minDate, count, seen, skipped, limit);
  }

  lemma EmptyHolds(limit: nat)
    requires 0 < limit
    ensures Holds({}, SIZE_MAX, 0, {}, limit)
  {
  }

  lemma OlderComplete(kept: set<Item>, minDate: int, count: nat, seen: set<Item>, skipped: set<Item>, limit: nat)
    requires Holds(kept, minDate, count, seen, limit) && AllOlder(kept, minDate, skipped, limit)
    ensures TieComplete(kept, seen + skipped, limit)
  {
    HoldsComplete(kept, minDate, count, seen, limit);
    assert skipped == {} ==> seen + skipped == seen;
  }

  // ---------------------------------------------------------------------------
  // Looking up ids and trimming.

  /** The result keys of a set of items, given the id of each vertex. */
  ghost function KeysOfItems(s: set<Item>, ids: nat -> nat): set<Key> {
    set e | e in s :: Key(-e.date, ids(e.vertex))
  }

  ghost predicate Injective(s: set<Item>, ids: nat -> nat) {
    forall a, b :: a in s && b in s && ids(a.vertex) == ids(b.vertex) ==> a.vertex == b.vertex
  }

  lemma KeysAdd(rest: set<Item>, e: Item, ids: nat -> nat)
    requires Injective(rest + {e}, ids) && e !in rest
    ensures KeysOfItems(rest + {e}, ids) == KeysOfItems(rest, ids) + {Key(-e.date, ids(e.vertex))}
    ensures Key(-e.date, ids(e.vertex)) !in KeysOfItems(rest, ids)
  {
    assert e in rest + {e};
  }

  lemma {:induction false} KeysSize(s: set<Item>, ids: nat -> nat)
    requires Injective(s, ids)
    ensures |KeysOfItems(s, ids)| == |s|
  {
    hide KeysOfItems;
    if e :| e in s {
      var rest := s - {e};
      assert s == rest + {e};
      KeysSize(rest, ids);
      KeysAdd(rest, e, ids);
    } else {
      NoItems(ids);
    }
  }

  lemma NoItems(ids: nat -> nat)
    ensures KeysOfItems({}, ids) == {}
  {
  }

  /** Erasing the last key again and again leaves the smallest `limit` keys with their values. */
  method Trim(keys: map<Key, nat>, limit: nat) returns (idx: map<Key, nat>)
    ensures IsTop(idx.Keys, keys.Keys, limit) && forall k :: k in idx ==> k in keys && idx[k] == keys[k]
  {
    idx := keys;
    while |idx.Keys| > limit
      invariant IsTop(idx.Keys, keys.Keys, if |idx.Keys| < limit then limit else |idx.Keys|)
      invariant forall k :: k in idx ==> k in keys && idx[k] == keys[k]
      decreases |idx.Keys|
    {
      TrimOne(idx.Keys, keys.Keys, |idx.Keys|);
      var last := Last(idx.Keys);
      assert (idx - {last}).Keys == idx.Keys - {last};
      idx := idx - {last};
    }
  }

  lemma TrimOne(idx: set<Key>, keys: set<Key>, n: nat)
    requires 0 < n == |idx| && IsTop(idx, keys, n)
    ensures IsTop(idx - {Last(idx)}, keys, n - 1)
  {
    var last := Last(idx);
    forall t, u | t in idx - {last} && u in keys && u !in idx - {last}
      ensures Less(t, u)
    {
      assert Less(t, last);
    }
  }

  /** Trimming the container gives the same as trimming everything. */
  lemma ContainerSuffices(kept: set<Item>, all: set<Item>, limit: nat, ids: nat -> nat, idx: set<Key>)
    requires TieComplete(kept, all, limit) && Injective(all, ids) && IsTop(idx, KeysOfItems(kept, ids), limit)
    ensures IsTop(idx, KeysOfItems(all, ids), limit)
  {
    hide TieComplete;
    assert Injective(kept, ids) && kept <= all by { InContainer(kept, all, limit); }
    KeysSize(kept, ids);
    forall e | e in kept
      ensures e in all
    {
    }
    if kept != all {
      InContainer(kept, all, limit);
      assert |idx| == limit;
      forall t, u | t in idx && u in KeysOfItems(all, ids) && u !in idx
        ensures Less(t, u)
      {
        if u !in KeysOfItems(kept, ids) {
          OutsideContainer(kept, all, limit, ids, t, u);
        }
      }
    }
  }

  lemma InContainer(kept: set<Item>, all: set<Item>, limit: nat)
    requires TieComplete(kept, all, limit)
    ensures kept <= all && (kept == all || limit <= |kept|)
  {
  }

  lemma OutsideContainer(kept: set<Item>, all: set<Item>, limit: nat, ids: nat -> nat, t: Key, u: Key)
    requires TieComplete(kept, all, limit) && t in KeysOfItems(kept, ids)
    requires u in KeysOfItems(all, ids) && u !in KeysOfItems(kept, ids)
    ensures Less(t, u)
  {
    var a :| a in kept && Key(-a.date, ids(a.vertex)) == t;
    var b :| b in all && Key(-b.date, ids(b.vertex)) == u;
    assert b !in kept;
  }

  /** The whole batch query: the exact first `limit` messages by date and id, equal dates
      included. */
  method BatchTopMessages(lists: seq<seq<Message>>, maxDate: int, limit: nat, ids: nat -> nat)
    returns (idx: map<Key, nat>)
    requires 0 < limit < DATE_LIMIT && AllFresh(lists, maxDate)
    requires forall list :: list in lists ==> Descending(list, KeyOf)
    requires Injective(AllItems(lists, maxDate), ids)
    requires forall list, m :: list in lists && m in list ==> m.id == ids(m.vertex)
    ensures IsTop(idx.Keys, AllWanted(lists, maxDate), limit)
    ensures forall k :: k in idx ==> Stands(k, idx[k], lists, maxDate)
  {
    hide TieComplete, IsTop, Injective, AllFresh, Descending, AllItems, AllWanted, Stands;
    var container := Collect(lists, maxDate, limit);
    var keys := Lookup(container, ids);
    idx := Trim(keys, limit);
    ContainerSuffices(container, AllItems(lists, maxDate), limit, ids, idx.Keys);
    WantedKeys(lists, maxDate, ids);
    InContainer(container, AllItems(lists, maxDate), limit);
    forall k | k in idx
      ensures Stands(k, idx[k], lists, maxDate)
    {
      var item :| item in container && k == Key(-item.date, ids(item.vertex)) && keys[k] == item.vertex;
      ItemStands(lists, maxDate, ids, item);
    }
  }

  lemma {:induction false} ItemStands(lists: seq<seq<Message>>, maxDate: int, ids: nat -> nat, item: Item)
    requires item in AllItems(lists, maxDate)
    requires forall list, m :: list in lists && m in list ==> m.id == ids(m.vertex)
    ensures Stands(Key(-item.date, ids(item.vertex)), item.vertex, lists, maxDate)
  {
    var front, last := lists[..|lists| - 1], lists[|lists| - 1];
    assert last in lists;
    if item in WantedItems(last, maxDate) {
      var m :| m in last && m.date < maxDate && ItemOf(m) == item;
      assert last in lists && m in last && m.id == ids(m.vertex);
    } else {
      ItemStands(front, maxDate, ids, item);
      StandsMore(Key(-item.date, ids(item.vertex)), item.vertex, lists, maxDate);
    }
  }

  lemma StandsMore(k: Key, vertex: nat, lists: seq<seq<Message>>, maxDate: int)
    requires lists != [] && Stands(k, vertex, lists[..|lists| - 1], maxDate)
    ensures Stands(k, vertex, lists, maxDate)
  {
  }

  method Lookup(container: set<Item>, ids: nat -> nat) returns (keys: map<Key, nat>)
    ensures keys.Keys == KeysOfItems(container, ids)
    ensures forall k :: k in keys ==>
      exists item :: item in container && k == Key(-item.date, ids(item.vertex)) && keys[k] == item.vertex
  {
    keys := map[];
    var todo := container;
    while todo != {}
      invariant todo <= container && keys.Keys == KeysOfItems(container - todo, ids)
      invariant forall k :: k in keys ==>
        exists item :: item in container && k == Key(-item.date, ids(item.vertex)) && keys[k] == item.vertex
    {
      var item := Begin(todo);
      var key := Key(-item.date, ids(item.vertex));
      assert keys[key := item.vertex].Keys == keys.Keys + {key};
      keys := if key in keys then keys else keys[key := item.vertex];
      assert container - (todo - {item}) == container - todo + {item};
      todo := todo - {item};
    }
    assert container - todo == container;
  }

  lemma {:induction false} WantedKeys(lists: seq<seq<Message>>, maxDate: int, ids: nat -> nat)
    requires forall list, m :: list in lists && m in list ==> m.id == ids(m.vertex)
    ensures KeysOfItems(AllItems(lists, maxDate), ids) == AllWanted(lists, maxDate)
  {
    if lists != [] {
      var front, last := lists[..|lists| - 1], lists[|lists| - 1];
      WantedKeys(front, maxDate, ids);
      ListKeys(last, maxDate, ids);
      AllWantedLast(lists, maxDate);
      assert KeysOfItems(AllItems(lists, maxDate), ids)
          == KeysOfItems(AllItems(front, maxDate), ids) + KeysOfItems(WantedItems(last, maxDate), ids);
    }
  }

  lemma ListKeys(list: seq<Message>, maxDate: int, ids: nat -> nat)
    requires forall m :: m in list ==> m.id == ids(m.vertex)
    ensures KeysOfItems(WantedItems(list, maxDate), ids) == Wanted(list, maxDate)
  {
    forall k
      ensures k in KeysOfItems(WantedItems(list, maxDate), ids) <==> k in Wanted(list, maxDate)
    {
      if k in Wanted(list, maxDate) {
        var m :| m in list && m.date < maxDate && KeyOf(m) == k;
        assert ItemOf(m) in WantedItems(list, maxDate);
      }
    }
  }

  lemma {:induction false} AllWantedLast(lists: seq<seq<Message>>, maxDate: int)
    requires lists != []
    ensures AllWanted(lists, maxDate) == AllWanted(lists[..|lists| - 1], maxDate) + Wanted(lists[|lists| - 1], maxDate)
  {
    if |lists| > 1 {
      AllWantedLast(lists[1..], maxDate);
      assert lists[1..][..|lists| - 2] == lists[..|lists| - 1][1..];
    }
  }
}
