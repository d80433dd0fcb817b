/** Interactive complex read 9: the most recent messages of friends and their friends. */
module RecentMessages {
  import opened TopK

  /** An entry of a creator's message list: the date it is ordered by, the id and the vertex. */
  datatype Message = Message(date: int, id: nat, vertex: nat)

  function KeyOf(m: Message): Key {
    Key(-m.date, m.id)
  }

  /** The keys of the messages before `maxDate`. */
  ghost function Wanted(list: seq<Message>, maxDate: int): set<Key> {
    set m | m in list && m.date < maxDate :: KeyOf(m)
  }

  ghost function AllWanted(lists: seq<seq<Message>>, maxDate: int): set<Key> {
    if lists == [] then {} else Wanted(lists[0], maxDate) + AllWanted(lists[1..], maxDate)
  }

  ghost predicate InFront(list: seq<Message>, n: nat, k: Key)
    requires n <= |list|
  {
    exists h :: 0 <= h < n && KeyOf(list[h]) == k
  }

  /** The messages come in the order of their keys: what has a smaller key than a message in
      front of it has been in the list before that message already. */
  ghost predicate InKeyOrder(list: seq<Message>) {
    forall i, j :: 0 <= i < j < |list| && Less(KeyOf(list[j]), KeyOf(list[i])) ==> InFront(list, i, KeyOf(list[j]))
  }

  /** For a list without repetitions this is just that. */
  lemma DistinctKeyOrder(list: seq<Message>)
    requires forall i, j :: 0 <= i < j < |list| ==> KeyOf(list[i]) != KeyOf(list[j])
    ensures InKeyOrder(list) <==> forall i, j :: 0 <= i < j < |list| ==> Less(KeyOf(list[i]), KeyOf(list[j]))
  {
  }

  /** The order a pass relies on, when it has looked at some keys before. */
  ghost predicate Ordered(list: seq<Message>, maxDate: int, looked: set<Key>, exact: bool) {
    if !exact then Descending(list, KeyOf)
    else forall i, j :: 0 <= i < j < |list| && Less(KeyOf(list[j]), KeyOf(list[i])) && list[j].date < maxDate ==>
      KeyOf(list[j]) in looked || InFront(list, i, KeyOf(list[j]))
  }

  // ---------------------------------------------------------------------------
  // The single pass as a function.

  predicate Enters(idx: set<Key>, k: Key, limit: nat) {
    |idx| < limit || idx == {} || Less(k, Last(idx))
  }

  function ScanList(idx: set<Key>, list: seq<Message>, maxDate: int, limit: nat): set<Key>
    decreases |list|
  {
    if list == [] then idx
    else
      var k := KeyOf(list[0]);
      if list[0].date >= maxDate then ScanList(idx, list[1..], maxDate, limit)
      else if Enters(idx, k, limit) then ScanList(Keep(idx, k, limit), list[1..], maxDate, limit)
      else if idx != {} && Last(idx).neg > k.neg then ScanList(idx, list[1..], maxDate, limit)
      else idx
  }

  function Scan(idx: set<Key>, lists: seq<seq<Message>>, maxDate: int, limit: nat): set<Key>
    decreases |lists|
  {
    if lists == [] then idx else Scan(ScanList(idx, lists[0], maxDate, limit), lists[1..], maxDate, limit)
  }

  // ---------------------------------------------------------------------------
  // What the single pass keeps.

  ghost predicate Good(idx: set<Key>, looked: set<Key>, skipped: set<Key>, limit: nat, exact: bool) {
    && IsTop(idx, looked, limit) && Behind(idx, skipped, exact) && (skipped != {} ==> |idx| == limit)
  }

  lemma EnterGood(idx: set<Key>, k: Key, looked: set<Key>, skipped: set<Key>, limit: nat, exact: bool)
    requires 0 < limit && Good(idx, looked, skipped, limit, exact) && Enters(idx, k, limit)
    ensures Good(Keep(idx, k, limit), looked + {k}, skipped, limit, exact)
  {
    hide Behind, IsTop, Greatest;
    EnterTop(idx, k, looked, limit);
    if skipped != {} {
      BehindMore(idx, Last(idx), k, skipped, exact);
      BehindLess(idx + {k}, Keep(idx, k, limit), skipped, exact);
      KeepSize(idx, k, limit);
    } else {
      NothingBehind(Keep(idx, k, limit), exact);
    }
  }

  lemma EnterTop(idx: set<Key>, k: Key, looked: set<Key>, limit: nat)
    requires 0 < limit && IsTop(idx, looked, limit) && Enters(idx, k, limit)
    ensures IsTop(Keep(idx, k, limit), looked + {k}, limit)
  {
    KeepTop(idx, looked, k, limit);
  }

  lemma KeepSize(idx: set<Key>, k: Key, limit: nat)
    requires |idx| == limit
    ensures |Keep(idx, k, limit)| == limit
  {
    if k in idx {
      assert idx + {k} == idx;
    }
  }

  lemma StayGood(idx: set<Key>, k: Key, looked: set<Key>, skipped: set<Key>, limit: nat, exact: bool)
    requires 0 < limit && Good(idx, looked, skipped, limit, exact) && !Enters(idx, k, limit)
    ensures Good(idx, looked + {k}, skipped, limit, exact)
  {
    hide Behind, Greatest;
    Reject(idx, looked, k, limit);
  }

  /** Stopping skips only what lies behind idx. */
  lemma StopGood(idx: set<Key>, list: seq<Message>, maxDate: int, looked: set<Key>, skipped: set<Key>, limit: nat,
                 exact: bool)
    requires 0 < limit && Good(idx, looked, skipped, limit, exact) && list != []
    requires Ordered(list, maxDate, looked, exact)
    requires !Enters(idx, KeyOf(list[0]), limit) && KeyOf(list[0]) in looked
    ensures Good(idx, looked, skipped + (Wanted(list[1..], maxDate) - looked), limit, exact)
  {
    var last := Last(idx);
    forall k, d | k in idx && d in Wanted(list[1..], maxDate) - looked
      ensures if exact then Less(k, d) else k.neg <= d.neg
    {
      var m :| m in list[1..] && m.date < maxDate && KeyOf(m) == d;
      var i :| 0 <= i < |list[1..]| && list[1..][i] == m;
      assert list[i + 1] == m;
      assert !exact ==> KeyOf(list[0]).neg <= KeyOf(list[i + 1]).neg;
      assert k == last || Less(k, last);
    }
  }

  lemma WantedCons(list: seq<Message>, maxDate: int)
    requires list != []
    ensures Wanted(list, maxDate)
         == (if list[0].date < maxDate then {KeyOf(list[0])} else {}) + Wanted(list[1..], maxDate)
  {
    forall m | m in list
      ensures m == list[0] || m in list[1..]
    {
    }
    assert forall m :: m in list[1..] ==> m in list;
  }

  lemma OrderedTail(list: seq<Message>, maxDate: int, looked: set<Key>, exact: bool)
    requires Ordered(list, maxDate, looked, exact) && list != []
    ensures Ordered(list[1..], maxDate, if list[0].date < maxDate then looked + {KeyOf(list[0])} else looked, exact)
  {
    if exact {
      var rest, seen := list[1..], if list[0].date < maxDate then looked + {KeyOf(list[0])} else looked;
      forall i, j | 0 <= i < j < |rest| && Less(KeyOf(rest[j]), KeyOf(rest[i])) && rest[j].date < maxDate
        ensures KeyOf(rest[j]) in seen || InFront(rest, i, KeyOf(rest[j]))
      {
        assert rest[i] == list[i + 1] && rest[j] == list[j + 1];
        if KeyOf(rest[j]) !in looked {
          var h :| 0 <= h < i + 1 && KeyOf(list[h]) == KeyOf(rest[j]);
          assert h > 0 ==> KeyOf(rest[h - 1]) == KeyOf(rest[j]);
        }
      }
    }
  }

  lemma OrderedMore(list: seq<Message>, maxDate: int, looked: set<Key>, k: Key, exact: bool)
    requires Ordered(list, maxDate, looked, exact)
    ensures Ordered(list, maxDate, looked + {k}, exact)
  {
  }

  lemma OrderedLater(list: seq<Message>, maxDate: int, looked: set<Key>, exact: bool)
    requires if exact then InKeyOrder(list) else Descending(list, KeyOf)
    ensures Ordered(list, maxDate, looked, exact)
  {
  }

  lemma {:induction false} ScanListGood(idx: set<Key>, list: seq<Message>, maxDate: int, looked: set<Key>,
                                        skipped: set<Key>, limit: nat, exact: bool)
    returns (looked': set<Key>, skipped': set<Key>)
    requires 0 < limit && Good(idx, looked, skipped, limit, exact) && Ordered(list, maxDate, looked, exact)
    ensures Good(ScanList(idx, list, maxDate, limit), looked', skipped', limit, exact)
    ensures looked' + skipped' == looked + skipped + Wanted(list, maxDate)
    decreases |list|
  {
    hide Good, Enters, Keep, Wanted, Ordered, KeyOf;
    if list == [] {
      looked', skipped' := looked, skipped;
      assert Wanted(list, maxDate) == {} by { NothingWanted(maxDate); }
    } else {
      var k := KeyOf(list[0]);
      OrderedTail(list, maxDate, looked, exact);
      WantedCons(list, maxDate);
      Moved(looked, skipped, k, Wanted(list[1..], maxDate));
      if list[0].date >= maxDate {
        looked', skipped' := ScanListGood(idx, list[1..], maxDate, looked, skipped, limit, exact);
      } else if Enters(idx, k, limit) {
        EnterGood(idx, k, looked, skipped, limit, exact);
        looked', skipped' := ScanListGood(Keep(idx, k, limit), list[1..], maxDate, looked + {k}, skipped, limit, exact);
      } else {
        StayGood(idx, k, looked, skipped, limit, exact);
        OrderedMore(list, maxDate, looked, k, exact);
        if idx != {} && Last(idx).neg > k.neg {
          looked', skipped' := ScanListGood(idx, list[1..], maxDate, looked + {k}, skipped, limit, exact);
        } else {
          StopGood(idx, list, maxDate, looked + {k}, skipped, limit, exact);
          looked', skipped' := looked + {k}, skipped + (Wanted(list[1..], maxDate) - (looked + {k}));
        }
      }
    }
  }

  lemma NothingWanted(maxDate: int)
    ensures Wanted([], maxDate) == {}
  {
  }

  lemma {:induction false} ScanGood(idx: set<Key>, lists: seq<seq<Message>>, maxDate: int, looked: set<Key>,
                                    skipped: set<Key>, limit: nat, exact: bool)
    returns (looked': set<Key>, skipped': set<Key>)
    requires 0 < limit && Good(idx, looked, skipped, limit, exact)
    requires forall list :: list in lists ==> if exact then InKeyOrder(list) else Descending(list, KeyOf)
    ensures Good(Scan(idx, lists, maxDate, limit), looked', skipped', limit, exact)
    ensures looked' + skipped' == looked + skipped + AllWanted(lists, maxDate)
    ensures looked == skipped == {} ==> looked' + skipped' == AllWanted(lists, maxDate)
    decreases |lists|
  {
    hide Good, Ordered, InKeyOrder, Descending;
    looked', skipped' := looked, skipped;
    if lists != [] {
      OrderedLater(lists[0], maxDate, looked, exact);
      looked', skipped' := ScanListGood(idx, lists[0], maxDate, looked, skipped, limit, exact);
      looked', skipped' :=
        ScanGood(ScanList(idx, lists[0], maxDate, limit), lists[1..], maxDate, looked', skipped', limit, exact);
    }
  }

  lemma EmptyGood(limit: nat)
    ensures forall exact :: Good({}, {}, {}, limit, exact)
  {
  }

  /** On lists ordered by date the pass returns as many messages as it should, none of them
      older than any left out, although it stops early in every list; and on lists in key
      order it returns exactly the first `limit` by date and id. */
  lemma ScanTop(lists: seq<seq<Message>>, maxDate: int, limit: nat)
    requires 0 < limit
    ensures (forall list :: list in lists ==> Descending(list, KeyOf)) ==>
      IsTopByDate(Scan({}, lists, maxDate, limit), AllWanted(lists, maxDate), limit)
    ensures (forall list :: list in lists ==> InKeyOrder(list)) ==>
      IsTop(Scan({}, lists, maxDate, limit), AllWanted(lists, maxDate), limit)
  {
    hide InKeyOrder, Descending, Scan, AllWanted, Good, IsTop, IsTopByDate;
    EmptyGood(limit);
    var idx := Scan({}, lists, maxDate, limit);
    if forall list :: list in lists ==> Descending(list, KeyOf) {
      var looked, skipped := ScanGood({}, lists, maxDate, {}, {}, limit, false);
      GoodTop(idx, looked, skipped, limit, false);
    }
    if forall list :: list in lists ==> InKeyOrder(list) {
      var looked, skipped := ScanGood({}, lists, maxDate, {}, {}, limit, true);
      GoodTop(idx, looked, skipped, limit, true);
    }
  }

  lemma GoodTop(idx: set<Key>, looked: set<Key>, skipped: set<Key>, limit: nat, exact: bool)
    requires Good(idx, looked, skipped, limit, exact)
    ensures if exact then IsTop(idx, looked + skipped, limit) else IsTopByDate(idx, looked + skipped, limit)
  {
    assert skipped == {} ==> looked + skipped == looked;
  }

  // ---------------------------------------------------------------------------
  // Exactly which lists the pass gets right.

  ghost predicate ExactAfter(before: seq<seq<Message>>, list: seq<Message>, maxDate: int, limit: nat) {
    IsTop(Scan({}, before + [list], maxDate, limit), AllWanted(before + [list], maxDate), limit)
  }

  /** Whatever comes before the list, the pass returns exactly what it should. */
  ghost predicate Trusted(list: seq<Message>) {
    forall before, maxDate, limit: nat :: 0 < limit && (forall l :: l in before ==> InKeyOrder(l)) ==>
      ExactAfter(before, list, maxDate, limit)
  }

  lemma {:induction false} ScanAppend(idx: set<Key>, lists: seq<seq<Message>>, list: seq<Message>, maxDate: int,
                                      limit: nat)
    ensures Scan(idx, lists + [list], maxDate, limit)
         == ScanList(Scan(idx, lists, maxDate, limit), list, maxDate, limit)
    decreases |lists|
  {
    if lists == [] {
      assert [list][1..] == [];
    } else {
      ScanAppend(ScanList(idx, lists[0], maxDate, limit), lists[1..], list, maxDate, limit);
      assert (lists + [list])[1..] == lists[1..] + [list];
    }
  }

  lemma {:induction false} AllWantedAppend(lists: seq<seq<Message>>, list: seq<Message>, maxDate: int)
    ensures AllWanted(lists + [list], maxDate) == AllWanted(lists, maxDate) + Wanted(list, maxDate)
  {
    if lists == [] {
      assert [list][1..] == [];
    } else {
      AllWantedAppend(lists[1..], list, maxDate);
      assert (lists + [list])[1..] == lists[1..] + [list];
    }
  }

  /** The first `n` messages, each in a list of its own. */
  function Singles(list: seq<Message>, n: nat): (lists: seq<seq<Message>>)
    requires n <= |list|
    ensures forall l :: l in lists ==> |l| == 1
  {
    if n == 0 then [] else Singles(list, n - 1) + [[list[n - 1]]]
  }

  lemma {:induction false} SinglesWanted(list: seq<Message>, n: nat, maxDate: int)
    requires n <= |list| && forall m :: m in list ==> m.date < maxDate
    ensures forall k :: k in AllWanted(Singles(list, n), maxDate) <==> InFront(list, n, k)
  {
    if n > 0 {
      SinglesWanted(list, n - 1, maxDate);
      AllWantedAppend(Singles(list, n - 1), [list[n - 1]], maxDate);
      forall k
        ensures k in Wanted([list[n - 1]], maxDate) <==> k == KeyOf(list[n - 1])
        ensures InFront(list, n, k) <==> InFront(list, n - 1, k) || k == KeyOf(list[n - 1])
      {
        assert list[n - 1] in [list[n - 1]];
      }
    }
  }

  function After(list: seq<Message>): (d: int)
    ensures forall m :: m in list ==> m.date < d
  {
    if list == [] then 0
    else
      var d := After(list[1..]);
      if list[0].date < d then d else list[0].date + 1
  }

  /** With all keys up to `i` in idx already and no room left, the pass stops before it gets
      further than `i`. */
  lemma {:induction false} ScanStops(idx: set<Key>, list: seq<Message>, i: nat, h: nat, maxDate: int, x: nat)
    requires x <= h <= i < |list| && (forall y :: 0 <= y <= i ==> KeyOf(list[y]) in idx)
    requires Greatest(idx, KeyOf(list[h])) && forall m :: m in list ==> m.date < maxDate
    ensures ScanList(idx, list[x..], maxDate, |idx|) == idx
    decreases h - x
  {
    var k := KeyOf(list[x]);
    assert list[x..][0] == list[x] && list[x..][1..] == list[x + 1..];
    assert Last(idx) == KeyOf(list[h]);
    if k != KeyOf(list[h]) {
      assert idx + {k} == idx;
      ScanStops(idx, list, i, h, maxDate, x + 1);
    }
  }

  /** After the messages up to `i`, each in a list of its own and all with room, the list
      itself adds nothing. */
  lemma SinglesStop(list: seq<Message>, i: nat)
    requires i < |list|
    ensures var before, d := Singles(list, i + 1), After(list);
      var all := AllWanted(before, d);
      0 < |all| && Scan({}, before + [list], d, |all|) == all && forall k :: k in all <==> InFront(list, i + 1, k)
  {
    hide Scan, ScanList, AllWanted, Singles, After, InFront;
    var before, d := Singles(list, i + 1), After(list);
    var all := AllWanted(before, d);
    SinglesWanted(list, i + 1, d);
    forall y | 0 <= y <= i
      ensures KeyOf(list[y]) in all
    {
      InFrontOf(list, i + 1, y);
    }
    assert KeyOf(list[i]) in all;
    FullOfSingles(list, i + 1, d);
    var h := FrontMember(list, i + 1, Last(all));
    ScanStops(all, list, i, h, d, 0);
    assert list[0..] == list;
    ScanAppend({}, before, list, d, |all|);
  }

  lemma InFrontOf(list: seq<Message>, n: nat, y: nat)
    requires y < n <= |list|
    ensures InFront(list, n, KeyOf(list[y]))
  {
  }

  lemma FrontMember(list: seq<Message>, n: nat, k: Key) returns (h: nat)
    requires n <= |list| && InFront(list, n, k)
    ensures h < n && KeyOf(list[h]) == k
  {
    h :| 0 <= h < n && KeyOf(list[h]) == k;
  }

  lemma OutOfOrder(list: seq<Message>) returns (i: nat, j: nat)
    requires !InKeyOrder(list)
    ensures i < j < |list| && Less(KeyOf(list[j]), KeyOf(list[i])) && !InFront(list, i + 1, KeyOf(list[j]))
  {
    i, j :| 0 <= i < j < |list| && Less(KeyOf(list[j]), KeyOf(list[i])) && !InFront(list, i, KeyOf(list[j]));
  }

  lemma OutOfOrderLoses(list: seq<Message>) returns (before: seq<seq<Message>>, maxDate: int, limit: nat)
    requires !InKeyOrder(list)
    ensures 0 < limit && (forall l :: l in before ==> |l| == 1) && !ExactAfter(before, list, maxDate, limit)
  {
    var i, j := OutOfOrder(list);
    hide Scan, ScanList, AllWanted, Singles, After, InFront, IsTop, InKeyOrder, Less;
    before, maxDate := Singles(list, i + 1), After(list);
    limit := |AllWanted(before, maxDate)|;
    SinglesStop(list, i);
    AllWantedAppend(before, list, maxDate);
    InFrontOf(list, i + 1, i);
    assert KeyOf(list[j]) in Wanted(list, maxDate) by { assert list[j] in list; }
    var top, all := Scan({}, before + [list], maxDate, limit), AllWanted(before + [list], maxDate);
    NotTop(top, all, limit, KeyOf(list[i]), KeyOf(list[j]));
  }

  lemma FullOfSingles(list: seq<Message>, n: nat, maxDate: int)
    requires 0 < n <= |list| && 0 < |AllWanted(Singles(list, n), maxDate)|
    ensures var all := AllWanted(Singles(list, n), maxDate); Scan({}, Singles(list, n), maxDate, |all|) == all
  {
    var all := AllWanted(Singles(list, n), maxDate);
    ScanTop(Singles(list, n), maxDate, |all|);
    TopIsAll(Scan({}, Singles(list, n), maxDate, |all|), all);
  }

  /** A list can be trusted if and only if its messages come in the order of their keys.  In
      a list by date that means: messages of one date come by ascending id. */
  lemma TrustedIff(list: seq<Message>)
    ensures Trusted(list) <==> InKeyOrder(list)
  {
    hide InKeyOrder;
    if InKeyOrder(list) {
      forall before, maxDate, limit: nat | 0 < limit && forall l :: l in before ==> InKeyOrder(l)
        ensures ExactAfter(before, list, maxDate, limit)
      {
        ScanTop(before + [list], maxDate, limit);
      }
    } else {
      var before, maxDate, limit := OutOfOrderLoses(list);
      forall l | l in before
        ensures InKeyOrder(l)
      {
        SingleInOrder(l);
      }
      assert !ExactAfter(before, list, maxDate, limit);
    }
  }

  lemma SingleInOrder(list: seq<Message>)
    requires |list| == 1
    ensures InKeyOrder(list)
  {
  }

  /** With equal dates the single pass can return the wrong message of that date: it keeps
      number 5, stops at number 7 and never sees number 3. */
  lemma TiesCanLose()
    ensures var list := [Message(10, 5, 1), Message(10, 7, 2), Message(10, 3, 3)];
      Descending(list, KeyOf) && !IsTop(Scan({}, [list], 20, 1), AllWanted([list], 20), 1)
  {
    hide Scan, AllWanted;
    var list := [Message(10, 5, 1), Message(10, 7, 2), Message(10, 3, 3)];
    TiedScan(list);
    TiedBest(list);
    assert Key(-10, 5) in Scan({}, [list], 20, 1) && Key(-10, 3) !in Scan({}, [list], 20, 1);
  }

  lemma TiedScan(list: seq<Message>)
    requires list == [Message(10, 5, 1), Message(10, 7, 2), Message(10, 3, 3)]
    ensures Scan({}, [list], 20, 1) == {Key(-10, 5)}
  {
    var lists: seq<seq<Message>> := [list];
    var top := {Key(-10, 5)};
    assert Last(top) == Key(-10, 5);
    assert Keep({}, Key(-10, 5), 1) == top;
    assert list[1..][0] == list[1];
    assert ScanList(top, list[1..], 20, 1) == top;
    assert lists[0] == list && lists[1..] == [];
    assert Scan(top, lists[1..], 20, 1) == top;
    assert Scan({}, lists, 20, 1) == top;
  }

  lemma TiedBest(list: seq<Message>)
    requires list == [Message(10, 5, 1), Message(10, 7, 2), Message(10, 3, 3)]
    ensures Key(-10, 3) in AllWanted([list], 20)
  {
    var lists: seq<seq<Message>> := [list];
    assert lists[0] == list;
    assert KeyOf(list[2]) in Wanted(list, 20);
  }

  // ---------------------------------------------------------------------------
  // The single pass as it runs.

  /** The entry is that of a message of the lists: its date and id, and its vertex. */
  ghost predicate Stands(k: Key, vertex: nat, lists: seq<seq<Message>>, maxDate: int) {
    exists list, m :: list in lists && m in list && m.date < maxDate && k == Key(-m.date, m.id) && vertex == m.vertex
  }

  method TopMessages(lists: seq<seq<Message>>, maxDate: int, limit: nat) returns (idx: map<Key, nat>)
    requires 0 < limit
    ensures idx.Keys == Scan({}, lists, maxDate, limit)
    ensures forall k :: k in idx ==> Stands(k, idx[k], lists, maxDate)
    ensures (forall list :: list in lists ==> Descending(list, KeyOf)) ==>
      IsTopByDate(idx.Keys, AllWanted(lists, maxDate), limit)
    ensures (forall list :: list in lists ==> InKeyOrder(list)) ==> IsTop(idx.Keys, AllWanted(lists, maxDate), limit)
  {
    hide Keep, Greatest, IsTop, IsTopByDate, Descending, InKeyOrder, AllWanted, Stands, ScanList;
    assert forall idx: set<Key> :: ScanList(idx, [], maxDate, limit) == idx by { ScanNothing(maxDate, limit); }
    idx := map[];
    var i := 0;
    while i < |lists|
      invariant i <= |lists| && |idx.Keys| <= limit
      invariant Scan(idx.Keys, lists[i..], maxDate, limit) == Scan({}, lists, maxDate, limit)
      invariant forall k :: k in idx ==> Stands(k, idx[k], lists, maxDate)
    {
      var nbrs, j, flag := lists[i], 0, true;
      ghost var idx0 := idx.Keys;
      while j < |nbrs| && flag
        invariant j <= |nbrs| && |idx.Keys| <= limit
        invariant (if flag then ScanList(idx.Keys, nbrs[j..], maxDate, limit) else idx.Keys)
               == ScanList(idx0, nbrs, maxDate, limit)
        invariant forall k :: k in idx ==> Stands(k, idx[k], lists, maxDate)
      {
        assert nbrs[j..][0] == nbrs[j] && nbrs[j..][1..] == nbrs[j + 1..];
        StandsFor(lists, maxDate, i, j);
        idx, flag := Consider(idx, nbrs[j], maxDate, limit, nbrs[j..], lists);
        j := j + 1;
      }
      assert lists[i..][0] == nbrs && lists[i..][1..] == lists[i + 1..];
      i := i + 1;
    }
    ScanTop(lists, maxDate, limit);
  }

  lemma StandsFor(lists: seq<seq<Message>>, maxDate: int, i: nat, j: nat)
    requires i < |lists| && j < |lists[i]|
    ensures var m := lists[i][j]; m.date < maxDate ==> Stands(Key(-m.date, m.id), m.vertex, lists, maxDate)
  {
    assert lists[i] in lists && lists[i][j] in lists[i];
  }

  lemma ScanNothing(maxDate: int, limit: nat)
    ensures forall idx: set<Key> :: ScanList(idx, [], maxDate, limit) == idx
  {
  }

  /** What the scan makes of its next message. */
  lemma ScanNext(idx: set<Key>, rest: seq<Message>, maxDate: int, limit: nat)
    requires rest != [] && 0 < limit && |idx| <= limit
    ensures var k := Key(-rest[0].date, rest[0].id);
      ScanList(idx, rest, maxDate, limit)
      == if rest[0].date >= maxDate then ScanList(idx, rest[1..], maxDate, limit)
         else if |idx| < limit || Less(k, Last(idx)) then ScanList(Keep(idx, k, limit), rest[1..], maxDate, limit)
         else if Last(idx).neg > k.neg then ScanList(idx, rest[1..], maxDate, limit) else idx
  {
    hide Keep, Greatest;
  }

  /** One message of a list, of which `rest` is still to come: the body of the inner loop. */
  method Consider(idx: map<Key, nat>, m: Message, maxDate: int, limit: nat, ghost rest: seq<Message>,
                  ghost lists: seq<seq<Message>>)
    returns (idx': map<Key, nat>, flag: bool)
    requires 0 < limit && |idx.Keys| <= limit && rest != [] && rest[0] == m
    requires forall k :: k in idx ==> Stands(k, idx[k], lists, maxDate)
    requires m.date < maxDate ==> Stands(Key(-m.date, m.id), m.vertex, lists, maxDate)
    ensures |idx'.Keys| <= limit && forall k :: k in idx' ==> Stands(k, idx'[k], lists, maxDate)
    ensures (if flag then ScanList(idx'.Keys, rest[1..], maxDate, limit) else idx'.Keys)
         == ScanList(idx.Keys, rest, maxDate, limit)
  {
    hide Keep, Greatest, Stands, ScanList, Less;
    ScanNext(idx.Keys, rest, maxDate, limit);
    idx', flag := idx, true;
    if m.date < maxDate {
      var key := Key(-m.date, m.id);
      if |idx.Keys| < limit || Less(key, Last(idx.Keys)) {
        idx' := EmplaceAndTrim(idx, key, m.vertex, limit);
      } else {
        flag := Last(idx.Keys).neg > key.neg;
      }
    }
  }

  /** The loop that follows an emplace, which leaves a key alone that is there. */
  method EmplaceAndTrim(idx: map<Key, nat>, key: Key, vertex: nat, limit: nat) returns (idx': map<Key, nat>)
    requires |idx.Keys| <= limit
    ensures idx'.Keys == Keep(idx.Keys, key, limit) && |idx'.Keys| <= limit
    ensures forall k :: k in idx' ==> if k in idx then idx'[k] == idx[k] else k == key && idx'[k] == vertex
  {
    idx' := if key in idx then idx else idx[key := vertex];
    assert idx'.Keys == idx.Keys + {key};
    while |idx'.Keys| > limit
      invariant || idx'.Keys == Keep(idx.Keys, key, limit)
                || (idx'.Keys == idx.Keys + {key} && |idx'.Keys| == limit + 1)
      invariant |idx'.Keys| <= limit + 1
      invariant forall k :: k in idx' ==> if k in idx then idx'[k] == idx[k] else k == key && idx'[k] == vertex
      decreases |idx'.Keys|
    {
      var last := Last(idx'.Keys);
      assert (idx' - {last}).Keys == idx'.Keys - {last};
      idx' := idx' - {last};
    }
  }
}
