/** Interactive complex read 7: the people who most recently liked a person's messages. */
module RecentLikers {
  import opened TopK

  /** One like: its date, the id and vertex of the person who likes, the message's vertex. */
  datatype Like = Like(date: int, person: nat, vertex: nat, message: nat)

  datatype Value = Value(vertex: nat, message: nat)

  /** idx, ordered by key, and person_hash from each person in it to its key. */
  datatype State = State(idx: map<Key, Value>, hash: map<nat, Key>)

  function KeyOf(like: Like): Key {
    Key(-like.date, like.person)
  }

  function ValueOf(like: Like): Value {
    Value(like.vertex, like.message)
  }

  // ---------------------------------------------------------------------------
  // The scan as a function.

  predicate Enters(s: State, like: Like, limit: nat) {
    && (|s.idx| < limit || s.idx == map[] || Less(KeyOf(like), Last(s.idx.Keys)))
    && (like.person !in s.hash || Less(KeyOf(like), s.hash[like.person]))
  }

  function Enter(s: State, like: Like, limit: nat): State {
    var idx := s.idx[KeyOf(like) := ValueOf(like)];
    var hash := s.hash[like.person := KeyOf(like)];
    if like.person in s.hash then State(idx - {s.hash[like.person]}, hash)
    else if |idx| > limit then
      assert KeyOf(like) in idx.Keys;
      State(idx - {Last(idx.Keys)}, hash - {Last(idx.Keys).id})
    else State(idx, hash)
  }

  /** Whether the rest of a list may still matter after a like that did not enter. */
  predicate GoesOn(s: State, like: Like, limit: nat) {
    |s.idx| < limit || s.idx == map[] || KeyOf(like).neg < Last(s.idx.Keys).neg
  }

  function ScanList(s: State, list: seq<Like>, limit: nat): State
    decreases |list|
  {
    if list == [] then s
    else if Enters(s, list[0], limit) then ScanList(Enter(s, list[0], limit), list[1..], limit)
    else if GoesOn(s, list[0], limit) then ScanList(s, list[1..], limit)
    else s
  }

  function ScanAll(s: State, lists: seq<seq<Like>>, limit: nat): State
    decreases |lists|
  {
    if lists == [] then s else ScanAll(ScanList(s, lists[0], limit), lists[1..], limit)
  }

  // ---------------------------------------------------------------------------
  // What the scan keeps.

  ghost function KeysOf(list: seq<Like>): set<Key> {
    set l | l in list :: KeyOf(l)
  }

  ghost function AllKeys(lists: seq<seq<Like>>): set<Key> {
    if lists == [] then {} else KeysOf(lists[0]) + AllKeys(lists[1..])
  }

  /** Every person's most recent like. */
  ghost function Bests(keys: set<Key>): set<Key> {
    set k | k in keys && forall m :: m in keys && m.id == k.id ==> !Less(m, k)
  }

  /** person_hash and idx are two views of one bijection. */
  ghost predicate InStep(s: State) {
    && (forall k :: k in s.idx ==> k.id in s.hash && s.hash[k.id] == k)
    && (forall p :: p in s.hash ==> s.hash[p] in s.idx && s.hash[p].id == p)
  }

  /** The person has a like in front of position `n` that is at least as new. */
  ghost predicate Beaten(list: seq<Like>, n: nat, k: Key)
    requires n <= |list|
  {
    exists h :: 0 <= h < n && KeyOf(list[h]).id == k.id && !Less(k, KeyOf(list[h]))
  }

  /** Whatever is in front of a like is strictly newer, or the like does not count. */
  ghost predicate TieFree(list: seq<Like>) {
    forall i, j :: 0 <= i < j < |list| ==>
      KeyOf(list[i]).neg < KeyOf(list[j]).neg || Beaten(list, i + 1, KeyOf(list[j]))
  }

  /** With one like per person this means strictly descending dates. */
  lemma DistinctTieFree(list: seq<Like>)
    requires forall i, j :: 0 <= i < j < |list| ==> list[i].person != list[j].person
    ensures TieFree(list) <==> StrictlyDescending(list, KeyOf)
  {
  }

  lemma StrictTieFree(list: seq<Like>)
    requires StrictlyDescending(list, KeyOf)
    ensures TieFree(list)
  {
  }

  ghost predicate BeatenBy(keys: set<Key>, k: Key) {
    exists m :: m in keys && m.id == k.id && !Less(k, m)
  }

  /** The order a scan relies on, when it has looked at some keys before. */
  ghost predicate Ordered(list: seq<Like>, looked: set<Key>, exact: bool) {
    if !exact then Descending(list, KeyOf)
    else forall i, j :: 0 <= i < j < |list| ==>
      KeyOf(list[i]).neg < KeyOf(list[j]).neg || BeatenBy(looked, KeyOf(list[j])) || Beaten(list, i + 1, KeyOf(list[j]))
  }

  /** idx holds the top of what was looked at, and nothing that was skipped matters. */
  ghost predicate Good(s: State, looked: set<Key>, skipped: set<Key>, limit: nat, exact: bool) {
    && InStep(s) && IsTop(s.idx.Keys, Bests(looked), limit)
    && Behind(s.idx.Keys, skipped, exact) && (skipped != {} ==> |s.idx| == limit)
  }

  ghost function BestsOf(keys: set<Key>, p: nat): set<Key> {
    set k | k in Bests(keys) && k.id == p
  }

  /** How a new key changes the set of best keys. */
  lemma BestsAdd(keys: set<Key>, k: Key)
    ensures Bests(keys + {k}) ==
      if exists m :: m in Bests(keys) && m.id == k.id && !Less(k, m) then Bests(keys)
      else Bests(keys) - BestsOf(keys, k.id) + {k}
  {
    if m :| m in Bests(keys) && m.id == k.id && !Less(k, m) {
    } else {
      forall m | m in keys && m.id == k.id
        ensures Less(k, m)
      {
        var b := BestExists(keys, m);
      }
    }
  }

  lemma {:induction false} BestExists(keys: set<Key>, k: Key) returns (b: Key)
    requires k in keys
    ensures b in Bests(keys) && b.id == k.id && !Less(k, b)
  {
    var same := set m | m in keys && m.id == k.id;
    assert k in same;
    b := FirstOf(same);
  }

  lemma {:induction false} FirstOf(keys: set<Key>) returns (b: Key)
    requires keys != {}
    ensures b in keys && forall m :: m in keys ==> !Less(m, b)
  {
    b :| b in keys;
    var rest := keys - {b};
    assert keys == rest + {b};
    if rest != {} {
      var c := FirstOf(rest);
      if Less(c, b) {
        b := c;
      }
    }
  }

  lemma OneBest(keys: set<Key>, a: Key, b: Key)
    requires a in Bests(keys) && b in Bests(keys) && a.id == b.id
    ensures a == b
  {
  }

  lemma EnterKeys(s: State, like: Like, limit: nat)
    requires InStep(s) && Enters(s, like, limit)
    ensures Enter(s, like, limit).idx.Keys
         == if like.person in s.hash then s.idx.Keys - {s.hash[like.person]} + {KeyOf(like)}
            else Keep(s.idx.Keys, KeyOf(like), limit)
  {
    hide Greatest, Less, Enters, Last, InStep;
    var k, v, longer := KeyOf(like), ValueOf(like), s.idx[KeyOf(like) := ValueOf(like)];
    EntryAdded(s.idx, k, v);
    if like.person in s.hash {
      EnterImproves(s, like, limit);
      EntryRemoved(longer, s.hash[like.person]);
      assert s.idx.Keys + {k} - {s.hash[like.person]} == s.idx.Keys - {s.hash[like.person]} + {k};
    } else if |longer| > limit {
      EntryRemoved(longer, Last(longer.Keys));
    }
  }

  lemma EntryAdded(idx: map<Key, Value>, k: Key, v: Value)
    ensures idx[k := v].Keys == idx.Keys + {k} && |idx[k := v]| == |idx.Keys + {k}|
  {
    assert |idx[k := v]| == |idx[k := v].Keys|;
  }

  lemma EntryRemoved(idx: map<Key, Value>, k: Key)
    ensures (idx - {k}).Keys == idx.Keys - {k}
  {
  }

  lemma EnterImproves(s: State, like: Like, limit: nat)
    requires Enters(s, like, limit) && like.person in s.hash
    ensures Less(KeyOf(like), s.hash[like.person]) && s.hash[like.person] != KeyOf(like)
  {
  }

  lemma EnterInStep(s: State, like: Like, limit: nat)
    requires InStep(s) && Enters(s, like, limit)
    ensures InStep(Enter(s, like, limit))
  {
    var k := KeyOf(like);
    if like.person !in s.hash {
      assert k !in s.idx;
    }
  }

  lemma SwapSize(top: set<Key>, b: Key, k: Key)
    requires b in top && k !in top
    ensures |top - {b} + {k}| == |top|
  {
  }

  lemma ImproveTop(top: set<Key>, all: set<Key>, limit: nat, b: Key, k: Key)
    requires IsTop(top, all, limit) && b in top && k !in all && Less(k, b)
    ensures IsTop(top - {b} + {k}, all - {b} + {k}, limit)
  {
    SwapSize(top, b, k);
    if top == all {
      assert top - {b} + {k} == all - {b} + {k};
    }
    forall t, u | t in top - {b} + {k} && u in all - {b} + {k} && u !in top - {b} + {k}
      ensures Less(t, u)
    {
      assert Less(b, u);
    }
  }

  /** A person already in idx improves. */
  lemma Improve(top: set<Key>, looked: set<Key>, limit: nat, b: Key, k: Key)
    requires IsTop(top, Bests(looked), limit) && b in top && b.id == k.id && Less(k, b)
    ensures IsTop(top - {b} + {k}, Bests(looked + {k}), limit)
  {
    hide IsTop;
    assert b in Bests(looked) by { InTop(top, Bests(looked), limit, b); }
    BestsImprove(looked, b, k);
    ImproveTop(top, Bests(looked), limit, b, k);
  }

  lemma InTop(top: set<Key>, all: set<Key>, limit: nat, b: Key)
    requires IsTop(top, all, limit) && b in top
    ensures b in all
  {
  }

  lemma BestsImprove(looked: set<Key>, b: Key, k: Key)
    requires b in Bests(looked) && b.id == k.id && Less(k, b)
    ensures k !in Bests(looked) && Bests(looked + {k}) == Bests(looked) - {b} + {k}
  {
    BestsAdd(looked, k);
    forall m | m in Bests(looked) && m.id == k.id
      ensures m == b
    {
      OneBest(looked, m, b);
    }
    assert BestsOf(looked, k.id) == {b};
  }

  /** A person not in idx either makes it or not. */
  lemma Newcomer(top: set<Key>, looked: set<Key>, limit: nat, k: Key)
    requires IsTop(top, Bests(looked), limit) && 0 < limit && (forall t :: t in top ==> t.id != k.id)
    ensures |top| < limit || top == {} || Less(k, Last(top)) ==> IsTop(Keep(top, k, limit), Bests(looked + {k}), limit)
    ensures !(|top| < limit || top == {} || Less(k, Last(top))) ==> IsTop(top, Bests(looked + {k}), limit)
  {
    var all := Bests(looked);
    var rest := all - BestsOf(looked, k.id);
    BestsAdd(looked, k);
    assert IsTop(top, rest, limit);
    if m :| m in all && m.id == k.id && !Less(k, m) {
      assert forall t :: t in top ==> Less(t, m);
    } else {
      KeepTop(top, rest, k, limit);
    }
  }

  lemma EnterTop(s: State, like: Like, looked: set<Key>, limit: nat)
    requires 0 < limit && InStep(s) && IsTop(s.idx.Keys, Bests(looked), limit) && Enters(s, like, limit)
    ensures IsTop(Enter(s, like, limit).idx.Keys, Bests(looked + {KeyOf(like)}), limit)
  {
    EnterKeys(s, like, limit);
    if like.person in s.hash {
      Improve(s.idx.Keys, looked, limit, s.hash[like.person], KeyOf(like));
    } else {
      Newcomer(s.idx.Keys, looked, limit, KeyOf(like));
    }
  }

  lemma StayTop(s: State, like: Like, looked: set<Key>, limit: nat)
    requires 0 < limit && InStep(s) && IsTop(s.idx.Keys, Bests(looked), limit) && !Enters(s, like, limit)
    ensures IsTop(s.idx.Keys, Bests(looked + {KeyOf(like)}), limit)
  {
    var k := KeyOf(like);
    if like.person in s.hash {
      var b := s.hash[like.person];
      assert b in s.idx.Keys && (b == Last(s.idx.Keys) || Less(b, Last(s.idx.Keys)));
      assert !Less(k, b);
      BestsAdd(looked, k);
      assert b in Bests(looked);
    } else {
      Newcomer(s.idx.Keys, looked, limit, k);
    }
  }

  lemma EnterBehind(s: State, like: Like, skipped: set<Key>, limit: nat, exact: bool)
    requires InStep(s) && Enters(s, like, limit) && Behind(s.idx.Keys, skipped, exact) && |s.idx| == limit && 0 < limit
    ensures Behind(Enter(s, like, limit).idx.Keys, skipped, exact)
    ensures |Enter(s, like, limit).idx| == limit
  {
    hide Enter, Behind, Greatest;
    var k, top := KeyOf(like), s.idx.Keys;
    EnterKeys(s, like, limit);
    EnterBeats(s, like, limit);
    var t := if like.person in s.hash then s.hash[like.person] else Last(top);
    BehindMore(top, t, k, skipped, exact);
    BehindLess(top + {k}, Enter(s, like, limit).idx.Keys, skipped, exact);
    if like.person in s.hash {
      SwapSize(top, t, k);
    } else {
      assert |top + {k}| == limit + 1;
    }
    assert |Enter(s, like, limit).idx| == |Enter(s, like, limit).idx.Keys|;
  }

  /** With idx full, what enters comes before something in it. */
  lemma EnterBeats(s: State, like: Like, limit: nat)
    requires InStep(s) && Enters(s, like, limit) && |s.idx| == limit && 0 < limit
    ensures s.idx.Keys != {} && |s.idx.Keys| == limit && KeyOf(like) !in s.idx
    ensures var t := if like.person in s.hash then s.hash[like.person] else Last(s.idx.Keys);
      t in s.idx && Less(KeyOf(like), t)
  {
    assert |s.idx| == |s.idx.Keys|;
  }

  lemma EnterGood(s: State, like: Like, looked: set<Key>, skipped: set<Key>, limit: nat, exact: bool)
    requires 0 < limit && Good(s, looked, skipped, limit, exact) && Enters(s, like, limit)
    ensures Good(Enter(s, like, limit), looked + {KeyOf(like)}, skipped, limit, exact)
  {
    hide Enter, Enters, Behind, Bests, IsTop, InStep;
    EnterInStep(s, like, limit);
    EnterTop(s, like, looked, limit);
    if skipped != {} {
      EnterBehind(s, like, skipped, limit, exact);
    } else {
      NothingBehind(Enter(s, like, limit).idx.Keys, exact);
    }
  }

  lemma StayGood(s: State, like: Like, looked: set<Key>, skipped: set<Key>, limit: nat, exact: bool)
    requires 0 < limit && Good(s, looked, skipped, limit, exact) && !Enters(s, like, limit)
    ensures Good(s, looked + {KeyOf(like)}, skipped, limit, exact)
  {
    hide Enters, Behind, Bests, IsTop;
    StayTop(s, like, looked, limit);
  }

  /** Keys that are beaten by others do not matter. */
  lemma BestsBeaten(looked: set<Key>, more: set<Key>)
    requires forall d :: d in more ==> BeatenBy(looked, d)
    ensures Bests(looked + more) == Bests(looked)
  {
    forall k
      ensures k in Bests(looked + more) <==> k in Bests(looked)
    {
      if k in Bests(looked) {
        BestStays(looked, more, k);
      }
      if k in Bests(looked + more) && k in more {
        var m :| m in looked && m.id == k.id && !Less(k, m);
        assert m == k;
      }
    }
  }

  lemma BestStays(looked: set<Key>, more: set<Key>, k: Key)
    requires k in Bests(looked) && forall d :: d in more ==> BeatenBy(looked, d)
    ensures k in Bests(looked + more)
  {
    forall m | m in more && m.id == k.id
      ensures !Less(m, k)
    {
      var b :| b in looked && b.id == m.id && !Less(m, b);
    }
  }

  ghost function AllBeaten(rest: set<Key>, looked: set<Key>): set<Key> {
    set d | d in rest && BeatenBy(looked, d)
  }

  /** Stopping skips only what lies behind idx, and what does not count. */
  lemma StopGood(s: State, list: seq<Like>, looked: set<Key>, skipped: set<Key>, limit: nat, exact: bool)
    requires Good(s, looked, skipped, limit, exact) && list != [] && Ordered(list, looked, exact)
    requires !GoesOn(s, list[0], limit)
    requires KeyOf(list[0]) in looked
    ensures var rest := KeysOf(list[1..]);
      var beaten := AllBeaten(rest, looked);
      Good(s, looked + beaten, skipped + (rest - beaten), limit, exact)
  {
    var rest := KeysOf(list[1..]);
    var beaten := AllBeaten(rest, looked);
    BestsBeaten(looked, beaten);
    StopBehind(s, list, looked, limit, exact);
    assert |s.idx| == |s.idx.Keys|;
  }

  lemma StopBehind(s: State, list: seq<Like>, looked: set<Key>, limit: nat, exact: bool)
    requires list != [] && Ordered(list, looked, exact) && !GoesOn(s, list[0], limit) && KeyOf(list[0]) in looked
    ensures var rest := KeysOf(list[1..]); Behind(s.idx.Keys, rest - AllBeaten(rest, looked), exact)
  {
    var top, last, rest := s.idx.Keys, Last(s.idx.Keys), KeysOf(list[1..]);
    forall k, d | k in top && d in rest - AllBeaten(rest, looked)
      ensures if exact then Less(k, d) else k.neg <= d.neg
    {
      var l :| l in list[1..] && KeyOf(l) == d;
      var i :| 0 <= i < |list[1..]| && list[1..][i] == l;
      assert list[i + 1] == l;
      assert !exact ==> KeyOf(list[0]).neg <= KeyOf(list[i + 1]).neg;
      assert Beaten(list, 1, d) ==> BeatenBy(looked, d);
      assert k == last || Less(k, last);
    }
  }

  lemma {:induction false} ScanListGood(s: State, list: seq<Like>, looked: set<Key>, skipped: set<Key>, limit: nat,
                                        exact: bool)
    returns (looked': set<Key>, skipped': set<Key>)
    requires 0 < limit && Good(s, looked, skipped, limit, exact) && Ordered(list, looked, exact)
    ensures Good(ScanList(s, list, limit), looked', skipped', limit, exact)
    ensures looked' + skipped' == looked + skipped + KeysOf(list)
    decreases |list|
  {
    hide Good, Enters, Enter, GoesOn, KeysOf, Ordered, KeyOf;
    if list == [] {
      looked', skipped' := looked, skipped;
      assert KeysOf(list) == {} by { NoKeys(); }
    } else {
      var k := KeyOf(list[0]);
      OrderedTail(list, looked, exact);
      KeysOfCons(list);
      Moved(looked, skipped, k, KeysOf(list[1..]));
      if Enters(s, list[0], limit) {
        EnterGood(s, list[0], looked, skipped, limit, exact);
        looked', skipped' := ScanListGood(Enter(s, list[0], limit), list[1..], looked + {k}, skipped, limit, exact);
      } else {
        StayGood(s, list[0], looked, skipped, limit, exact);
        if GoesOn(s, list[0], limit) {
          looked', skipped' := ScanListGood(s, list[1..], looked + {k}, skipped, limit, exact);
        } else {
          StopGood(s, list, looked + {k}, skipped, limit, exact);
          var rest := KeysOf(list[1..]);
          var beaten := AllBeaten(rest, looked + {k});
          Parted(looked, skipped, k, rest, beaten);
          looked', skipped' := looked + {k} + beaten, skipped + (rest - beaten);
        }
      }
    }
  }

  lemma NoKeys()
    ensures KeysOf([]) == {}
  {
  }

  lemma OrderedTail(list: seq<Like>, looked: set<Key>, exact: bool)
    requires Ordered(list, looked, exact) && list != []
    ensures Ordered(list[1..], looked + {KeyOf(list[0])}, exact) && Ordered(list, looked + {KeyOf(list[0])}, exact)
  {
    if exact {
      var rest, seen := list[1..], looked + {KeyOf(list[0])};
      assert forall k :: BeatenBy(looked, k) ==> BeatenBy(seen, k);
      forall i, j | 0 <= i < j < |rest|
        ensures || KeyOf(rest[i]).neg < KeyOf(rest[j]).neg
                || BeatenBy(seen, KeyOf(rest[j])) || Beaten(rest, i + 1, KeyOf(rest[j]))
      {
        var k := KeyOf(rest[j]);
        assert rest[i] == list[i + 1] && rest[j] == list[j + 1];
        if Beaten(list, i + 2, k) {
          var h :| 0 <= h < i + 2 && KeyOf(list[h]).id == k.id && !Less(k, KeyOf(list[h]));
          assert h > 0 ==> rest[h - 1] == list[h];
        }
      }
    }
  }

  lemma OrderedLater(list: seq<Like>, looked: set<Key>, exact: bool)
    requires if exact then TieFree(list) else Descending(list, KeyOf)
    ensures Ordered(list, looked, exact)
  {
  }

  lemma Parted(looked: set<Key>, skipped: set<Key>, k: Key, rest: set<Key>, part: set<Key>)
    requires part <= rest
    ensures looked + {k} + part + (skipped + (rest - part)) == looked + skipped + ({k} + rest)
  {
  }

  lemma KeysOfCons(list: seq<Like>)
    requires list != []
    ensures KeysOf(list) == {KeyOf(list[0])} + KeysOf(list[1..])
  {
    forall l | l in list
      ensures l == list[0] || l in list[1..]
    {
    }
    assert forall l :: l in list[1..] ==> l in list;
  }

  lemma {:induction false} ScanAllGood(s: State, lists: seq<seq<Like>>, looked: set<Key>, skipped: set<Key>,
                                       limit: nat, exact: bool)
    returns (looked': set<Key>, skipped': set<Key>)
    requires 0 < limit && Good(s, looked, skipped, limit, exact)
    requires forall list :: list in lists ==> if exact then TieFree(list) else Descending(list, KeyOf)
    ensures Good(ScanAll(s, lists, limit), looked', skipped', limit, exact)
    ensures looked' + skipped' == looked + skipped + AllKeys(lists)
    decreases |lists|
  {
    hide Good, Ordered, TieFree, Descending;
    looked', skipped' := looked, skipped;
    if lists != [] {
      OrderedLater(lists[0], looked, exact);
      looked', skipped' := ScanListGood(s, lists[0], looked, skipped, limit, exact);
      looked', skipped' := ScanAllGood(ScanList(s, lists[0], limit), lists[1..], looked', skipped', limit, exact);
    }
  }

  lemma GoodTop(s: State, looked: set<Key>, skipped: set<Key>, limit: nat, exact: bool)
    requires Good(s, looked, skipped, limit, exact)
    ensures if exact then IsTop(s.idx.Keys, Bests(looked + skipped), limit)
            else IsTopByDate(s.idx.Keys, Bests(looked + skipped), limit)
  {
    hide Bests, Behind, InStep;
    var top, all := s.idx.Keys, Bests(looked + skipped);
    assert |s.idx| == |top|;
    if skipped == {} {
      assert looked + skipped == looked;
    } else {
      StillBest(top, looked, skipped, exact);
      forall t, u | t in top && u in all && u !in top
        ensures if exact then Less(t, u) else t.neg <= u.neg
      {
        LeftOut(top, looked, skipped, limit, exact, t, u);
      }
    }
  }

  lemma LeftOut(top: set<Key>, looked: set<Key>, skipped: set<Key>, limit: nat, exact: bool, t: Key, u: Key)
    requires IsTop(top, Bests(looked), limit) && Behind(top, skipped, exact)
    requires t in top && u in Bests(looked + skipped) && u !in top
    ensures if exact then Less(t, u) else t.neg <= u.neg
  {
    assert u in looked ==> u in Bests(looked);
  }

  lemma StillBest(top: set<Key>, looked: set<Key>, skipped: set<Key>, exact: bool)
    requires top <= Bests(looked) && Behind(top, skipped, exact)
    ensures top <= Bests(looked + skipped)
  {
  }

  /** The result of the query's scan. */
  function Scan(lists: seq<seq<Like>>, limit: nat): State {
    ScanAll(State(map[], map[]), lists, limit)
  }

  lemma ScanGood(lists: seq<seq<Like>>, limit: nat, exact: bool) returns (looked: set<Key>, skipped: set<Key>)
    requires 0 < limit && forall list :: list in lists ==> if exact then TieFree(list) else Descending(list, KeyOf)
    ensures Good(Scan(lists, limit), looked, skipped, limit, exact) && looked + skipped == AllKeys(lists)
  {
    assert Good(State(map[], map[]), {}, {}, limit, exact);
    looked, skipped := ScanAllGood(State(map[], map[]), lists, {}, {}, limit, exact);
  }

  /** On tie-free lists the scan keeps exactly the `limit` smallest of the persons' best keys,
      although it stops early in every list. */
  lemma ScanExact(lists: seq<seq<Like>>, limit: nat)
    requires 0 < limit && forall list :: list in lists ==> TieFree(list)
    ensures IsTop(Scan(lists, limit).idx.Keys, Bests(AllKeys(lists)), limit) && InStep(Scan(lists, limit))
  {
    hide TieFree;
    var looked, skipped := ScanGood(lists, limit, true);
    GoodTop(Scan(lists, limit), looked, skipped, limit, true);
  }

  /** Equal dates cost no more than the choice among them. */
  lemma ScanUpToTies(lists: seq<seq<Like>>, limit: nat)
    requires 0 < limit && forall list :: list in lists ==> Descending(list, KeyOf)
    ensures IsTopByDate(Scan(lists, limit).idx.Keys, Bests(AllKeys(lists)), limit) && InStep(Scan(lists, limit))
  {
    hide Descending;
    var looked, skipped := ScanGood(lists, limit, false);
    GoodTop(Scan(lists, limit), looked, skipped, limit, false);
  }

  /** The entry is that of the like: its date and person, and the two vertices in their places. */
  predicate Stands(k: Key, v: Value, l: Like) {
    k == Key(-l.date, l.person) && v.vertex == l.vertex && v.message == l.message
  }

  /** Every entry carries the vertices of a like with its key. */
  ghost predicate Real(s: State, likes: set<Like>) {
    forall k :: k in s.idx ==> exists l :: l in likes && Stands(k, s.idx[k], l)
  }

  lemma {:induction false} ScanListReal(s: State, list: seq<Like>, limit: nat, likes: set<Like>)
    requires Real(s, likes) && forall l :: l in list ==> l in likes
    ensures Real(ScanList(s, list, limit), likes)
    decreases |list|
  {
    hide Enters, GoesOn, Last;
    if list != [] {
      assert list[0] in list;
      if Enters(s, list[0], limit) {
        ScanListReal(Enter(s, list[0], limit), list[1..], limit, likes);
      } else if GoesOn(s, list[0], limit) {
        ScanListReal(s, list[1..], limit, likes);
      }
    }
  }

  lemma {:induction false} ScanReal(s: State, lists: seq<seq<Like>>, limit: nat, likes: set<Like>)
    requires Real(s, likes) && forall list, l :: list in lists && l in list ==> l in likes
    ensures Real(ScanAll(s, lists, limit), likes)
    decreases |lists|
  {
    if lists != [] {
      ScanListReal(s, lists[0], limit, likes);
      ScanReal(ScanList(s, lists[0], limit), lists[1..], limit, likes);
    }
  }

  // ---------------------------------------------------------------------------
  // Exactly which lists the scan gets right.

  ghost predicate ExactAfter(before: seq<seq<Like>>, list: seq<Like>, limit: nat) {
    IsTop(Scan(before + [list], limit).idx.Keys, Bests(AllKeys(before + [list])), limit)
  }

  /** Whatever comes before the list, the scan keeps exactly what it should. */
  ghost predicate Trusted(list: seq<Like>) {
    forall before, limit: nat :: 0 < limit && (forall l :: l in before ==> TieFree(l)) ==>
      ExactAfter(before, list, limit)
  }

  lemma {:induction false} ScanAppend(s: State, lists: seq<seq<Like>>, list: seq<Like>, limit: nat)
    ensures ScanAll(s, lists + [list], limit) == ScanList(ScanAll(s, lists, limit), list, limit)
    decreases |lists|
  {
    if lists == [] {
      assert [list][1..] == [];
    } else {
      ScanAppend(ScanList(s, lists[0], limit), lists[1..], list, limit);
      assert (lists + [list])[1..] == lists[1..] + [list];
    }
  }

  lemma {:induction false} AllKeysAppend(lists: seq<seq<Like>>, list: seq<Like>)
    ensures AllKeys(lists + [list]) == AllKeys(lists) + KeysOf(list)
  {
    if lists == [] {
      assert [list][1..] == [];
    } else {
      AllKeysAppend(lists[1..], list);
      assert (lists + [list])[1..] == lists[1..] + [list];
    }
  }

  function Lowest(list: seq<Like>): (neg: int)
    ensures forall l :: l in list ==> neg <= KeyOf(l).neg
  {
    if list == [] then 0
    else
      var neg := Lowest(list[1..]);
      if KeyOf(list[0]).neg < neg then KeyOf(list[0]).neg else neg
  }

  /** A person with an id above all in the list. */
  function Stranger(list: seq<Like>): (p: nat)
    ensures forall l :: l in list ==> l.person < p
  {
    if list == [] then 0
    else
      var p := Stranger(list[1..]);
      if list[0].person < p then p else list[0].person + 1
  }

  /** For everybody but `b` among the first `n` likes, a list with one like as new as any. */
  function Presets(list: seq<Like>, n: nat, b: nat): (lists: seq<seq<Like>>)
    requires n <= |list|
    ensures forall l :: l in lists ==> |l| == 1
  {
    if n == 0 then []
    else
      var lists := Presets(list, n - 1, b);
      if list[n - 1].person == b then lists else lists + [[Like(-Lowest(list), list[n - 1].person, 0, 0)]]
  }

  ghost predicate Preset(list: seq<Like>, n: nat, b: nat, k: Key)
    requires n <= |list|
  {
    k.neg == Lowest(list) && k.id != b && exists h :: 0 <= h < n && list[h].person == k.id
  }

  lemma {:induction false} PresetKeys(list: seq<Like>, n: nat, b: nat)
    requires n <= |list|
    ensures forall k :: k in AllKeys(Presets(list, n, b)) <==> Preset(list, n, b, k)
  {
    hide Lowest;
    if n > 0 {
      PresetKeys(list, n - 1, b);
      if list[n - 1].person == b {
        assert Presets(list, n, b) == Presets(list, n - 1, b);
      } else {
        var l := Like(-Lowest(list), list[n - 1].person, 0, 0);
        AllKeysAppend(Presets(list, n - 1, b), [l]);
        SingleKey(l);
      }
      forall k
        ensures Preset(list, n, b, k)
           <==> Preset(list, n - 1, b, k) || (k == Key(Lowest(list), list[n - 1].person) && k.id != b)
      {
        if k.id == list[n - 1].person && k.neg == Lowest(list) && k.id != b {
          assert list[n - 1].person == k.id;
        }
      }
    }
  }

  lemma SingleKey(l: Like)
    ensures KeysOf([l]) == {KeyOf(l)} && TieFree([l])
  {
    assert l in [l];
  }

  /** The lists that set the trap for the like at `j`, and their keys. */
  function Trap(list: seq<Like>, i: nat, j: nat): (lists: seq<seq<Like>>)
    requires i < j < |list|
    ensures forall l :: l in lists ==> |l| == 1
  {
    Presets(list, i + 1, list[j].person) + [[Like(list[j].date, Stranger(list), 0, 0)]]
  }

  ghost predicate TrapKey(list: seq<Like>, i: nat, j: nat, k: Key)
    requires i < j < |list|
  {
    Preset(list, i + 1, list[j].person, k) || k == Key(KeyOf(list[j]).neg, Stranger(list))
  }

  lemma TrapKeys(list: seq<Like>, i: nat, j: nat)
    requires i < j < |list|
    ensures forall k :: k in AllKeys(Trap(list, i, j)) <==> TrapKey(list, i, j, k)
    ensures Bests(AllKeys(Trap(list, i, j))) == AllKeys(Trap(list, i, j))
  {
    hide Lowest, Stranger;
    PresetKeys(list, i + 1, list[j].person);
    var l := Like(list[j].date, Stranger(list), 0, 0);
    AllKeysAppend(Presets(list, i + 1, list[j].person), [l]);
    SingleKey(l);
    forall k, m | TrapKey(list, i, j, k) && TrapKey(list, i, j, m) && k.id == m.id
      ensures k == m
    {
      TrapIds(list, i, j, k);
      TrapIds(list, i, j, m);
    }
  }

  lemma TrapIds(list: seq<Like>, i: nat, j: nat, k: Key)
    requires i < j < |list| && TrapKey(list, i, j, k)
    ensures k.id == Stranger(list) <==> k == Key(KeyOf(list[j]).neg, Stranger(list))
    ensures k.id != Stranger(list) ==> k.neg == Lowest(list)
    ensures k.id != list[j].person
  {
    hide Lowest;
    assert list[j] in list;
    if Preset(list, i + 1, list[j].person, k) {
      var h :| 0 <= h < i + 1 && list[h].person == k.id;
      assert list[h] in list;
    }
  }

  /** What the trap leaves: idx is full, and everybody up to `i` but the person of `j` is in
      it with a like as new as any. */
  lemma TrapState(list: seq<Like>, i: nat, j: nat)
    requires i < j < |list|
    ensures var all := AllKeys(Trap(list, i, j));
      var s := Scan(Trap(list, i, j), |all|);
      && 0 < |all| && InStep(s) && s.idx.Keys == all
      && Greatest(all, Key(KeyOf(list[j]).neg, Stranger(list)))
  {
    hide Lowest, Stranger, Scan, Bests, AllKeys, Trap, TrapKey, InStep, TieFree;
    var trap := Trap(list, i, j);
    var all := AllKeys(trap);
    TrapKeys(list, i, j);
    TrapTop(list, i, j, all);
    forall l | l in trap
      ensures TieFree(l)
    {
      SingleKey(l[0]);
      assert l == [l[0]];
    }
    ScanExact(trap, |all|);
    TopIsAll(Scan(trap, |all|).idx.Keys, all);
  }

  lemma TrapTop(list: seq<Like>, i: nat, j: nat, all: set<Key>)
    requires i < j < |list| && forall k :: k in all <==> TrapKey(list, i, j, k)
    ensures Greatest(all, Key(KeyOf(list[j]).neg, Stranger(list))) && 0 < |all|
  {
    hide Lowest, Stranger;
    var last := Key(KeyOf(list[j]).neg, Stranger(list));
    assert TrapKey(list, i, j, last) && last in all;
    forall k | k in all
      ensures k == last || Less(k, last)
    {
      TrapLess(list, i, j, k);
    }
  }

  lemma TrapLess(list: seq<Like>, i: nat, j: nat, k: Key)
    requires i < j < |list| && TrapKey(list, i, j, k)
    ensures var last := Key(KeyOf(list[j]).neg, Stranger(list)); k == last || Less(k, last)
  {
    hide Lowest, Stranger;
    assert list[j] in list;
    if Preset(list, i + 1, list[j].person, k) {
      var h :| 0 <= h < i + 1 && list[h].person == k.id;
      assert list[h] in list;
    }
  }

  /** Nothing enters, and the like at `i` at the latest stops the scan. */
  lemma {:induction false} ScanStops(s: State, list: seq<Like>, i: nat, limit: nat, x: nat)
    requires x <= i < |list| && (forall y :: x <= y <= i ==> !Enters(s, list[y], limit)) && !GoesOn(s, list[i], limit)
    ensures ScanList(s, list[x..], limit) == s
    decreases i - x
  {
    assert list[x..][0] == list[x] && list[x..][1..] == list[x + 1..];
    if x < i {
      ScanStops(s, list, i, limit, x + 1);
    }
  }

  ghost predicate Tied(list: seq<Like>, i: nat, j: nat) {
    i < j < |list| && KeyOf(list[j]).neg <= KeyOf(list[i]).neg && !Beaten(list, i + 1, KeyOf(list[j]))
  }

  lemma TrapShuts(list: seq<Like>, i: nat, j: nat, s: State, y: nat)
    requires Tied(list, i, j) && y <= i && InStep(s) && s.idx != map[]
    requires forall k :: k in s.idx.Keys <==> TrapKey(list, i, j, k)
    requires Last(s.idx.Keys) == Key(KeyOf(list[j]).neg, Stranger(list))
    ensures !Enters(s, list[y], |s.idx|) && (y == i ==> !GoesOn(s, list[y], |s.idx|))
  {
    hide Lowest, Stranger;
    var k := KeyOf(list[y]);
    if list[y].person == list[j].person {
      assert !(k.id == KeyOf(list[j]).id && !Less(KeyOf(list[j]), k));
    } else {
      assert Preset(list, i + 1, list[j].person, Key(Lowest(list), k.id)) by {
        assert list[y].person == k.id;
      }
      assert TrapKey(list, i, j, Key(Lowest(list), k.id));
      assert list[y] in list;
    }
  }

  lemma TrapStops(list: seq<Like>, i: nat, j: nat)
    requires Tied(list, i, j)
    ensures var all := AllKeys(Trap(list, i, j)); 0 < |all| && Scan(Trap(list, i, j) + [list], |all|).idx.Keys == all
  {
    hide AllKeys, Trap, TrapKey, Greatest, InStep, Tied, Enters, GoesOn, ScanList, Bests;
    TiedIndices(list, i, j);
    var trap := Trap(list, i, j);
    var limit := |AllKeys(trap)|;
    var s := Scan(trap, limit);
    TrapState(list, i, j);
    TrapKeys(list, i, j);
    assert |s.idx| == |s.idx.Keys|;
    OneGreatest(s.idx.Keys, Key(KeyOf(list[j]).neg, Stranger(list)));
    forall y | 0 <= y <= i
      ensures !Enters(s, list[y], limit) && (y == i ==> !GoesOn(s, list[y], limit))
    {
      TrapShuts(list, i, j, s, y);
    }
    ScanStops(s, list, i, limit, 0);
    assert list[0..] == list;
    ScanAppend(State(map[], map[]), trap, list, limit);
  }

  lemma TiedIndices(list: seq<Like>, i: nat, j: nat)
    requires Tied(list, i, j)
    ensures i < j < |list|
  {
  }

  lemma OneGreatest(keys: set<Key>, k: Key)
    requires Greatest(keys, k)
    ensures keys != {} && Last(keys) == k
  {
  }

  /** After the trap, the scan of the list stops at `i` or before and loses the like at `j`. */
  lemma TiesLose(list: seq<Like>, i: nat, j: nat)
    requires Tied(list, i, j)
    ensures var limit := |AllKeys(Trap(list, i, j))|; 0 < limit && !ExactAfter(Trap(list, i, j), list, limit)
  {
    hide Trap, TrapKey, IsTop, Scan, Bests, AllKeys, Lowest, Stranger, Less;
    var trap := Trap(list, i, j);
    var all, last := AllKeys(trap), Key(KeyOf(list[j]).neg, Stranger(list));
    TrapStops(list, i, j);
    TrapState(list, i, j);
    TrapKeys(list, i, j);
    AllKeysAppend(trap, list);
    assert KeyOf(list[j]) in KeysOf(list) by { assert list[j] in list; }
    var u := BestExists(AllKeys(trap + [list]), KeyOf(list[j]));
    if u in all {
      TrapIds(list, i, j, u);
    }
    assert Less(u, last) by { BeforeStranger(list, j, u); }
    NotTop(all, Bests(AllKeys(trap + [list])), |all|, last, u);
  }

  lemma BeforeStranger(list: seq<Like>, j: nat, u: Key)
    requires j < |list| && u.id == list[j].person && !Less(KeyOf(list[j]), u)
    ensures Less(u, Key(KeyOf(list[j]).neg, Stranger(list)))
  {
    assert list[j] in list;
  }

  /** A list can be trusted if and only if it is tie-free: with one like per person, if and
      only if its dates strictly descend. */
  lemma TrustedIff(list: seq<Like>)
    ensures Trusted(list) <==> TieFree(list)
    ensures (forall i, j :: 0 <= i < j < |list| ==> list[i].person != list[j].person) ==>
      (Trusted(list) <==> StrictlyDescending(list, KeyOf))
  {
    hide TieFree, ExactAfter, StrictlyDescending;
    if TieFree(list) {
      forall before, limit: nat | 0 < limit && forall l :: l in before ==> TieFree(l)
        ensures ExactAfter(before, list, limit)
      {
        TrustedScan(before, list, limit);
      }
    } else {
      var i, j := SomeTie(list);
      TiesLose(list, i, j);
      forall l | l in Trap(list, i, j)
        ensures TieFree(l)
      {
        SingleKey(l[0]);
        assert l == [l[0]];
      }
    }
    if forall i, j :: 0 <= i < j < |list| ==> list[i].person != list[j].person {
      DistinctTieFree(list);
    }
  }

  lemma TrustedScan(before: seq<seq<Like>>, list: seq<Like>, limit: nat)
    requires 0 < limit && TieFree(list) && forall l :: l in before ==> TieFree(l)
    ensures ExactAfter(before, list, limit)
  {
    ScanExact(before + [list], limit);
  }

  lemma SomeTie(list: seq<Like>) returns (i: nat, j: nat)
    requires !TieFree(list)
    ensures Tied(list, i, j)
  {
    i, j :| 0 <= i < j < |list| && !(KeyOf(list[i]).neg < KeyOf(list[j]).neg) && !Beaten(list, i + 1, KeyOf(list[j]));
  }

  /** Without strictness the choice can be wrong: of three likes on one date the scan keeps
      person 5, stops at person 7, and never sees person 3. */
  lemma TiesCanLose()
    ensures var list := [Like(10, 5, 50, 1), Like(10, 7, 70, 1), Like(10, 3, 30, 1)];
      Descending(list, KeyOf) && !IsTop(Scan([list], 1).idx.Keys, Bests(AllKeys([list])), 1)
  {
    hide Scan, Bests, AllKeys;
    var list := [Like(10, 5, 50, 1), Like(10, 7, 70, 1), Like(10, 3, 30, 1)];
    TiedScan(list);
    TiedBest(list);
    assert Key(-10, 5) in Scan([list], 1).idx.Keys && Key(-10, 3) !in Scan([list], 1).idx.Keys;
  }

  lemma TiedScan(list: seq<Like>)
    requires list == [Like(10, 5, 50, 1), Like(10, 7, 70, 1), Like(10, 3, 30, 1)]
    ensures Scan([list], 1).idx.Keys == {Key(-10, 5)}
  {
    var lists: seq<seq<Like>> := [list];
    var s0, s1 := State(map[], map[]), State(map[Key(-10, 5) := Value(50, 1)], map[5 := Key(-10, 5)]);
    assert Enters(s0, list[0], 1);
    assert Enter(s0, list[0], 1) == s1;
    assert s1.idx.Keys == {Key(-10, 5)};
    assert Last(s1.idx.Keys) == Key(-10, 5);
    assert list[1..][0] == list[1];
    assert ScanList(s1, list[1..], 1) == s1;
    assert lists[0] == list && lists[1..] == [];
    assert ScanAll(s1, lists[1..], 1) == s1;
    assert Scan(lists, 1) == s1;
  }

  lemma TiedBest(list: seq<Like>)
    requires list == [Like(10, 5, 50, 1), Like(10, 7, 70, 1), Like(10, 3, 30, 1)]
    ensures Key(-10, 3) in Bests(AllKeys([list]))
  {
    var lists: seq<seq<Like>> := [list];
    assert lists[0] == list && lists[1..] == [];
    assert AllKeys(lists) == KeysOf(list);
    assert KeyOf(list[2]) in KeysOf(list);
  }

  // ---------------------------------------------------------------------------
  // The scan as it runs.

  lemma EnterSize(s: State, like: Like, limit: nat)
    requires InStep(s) && Enters(s, like, limit) && |s.idx| <= limit && 0 < limit
    ensures |Enter(s, like, limit).idx| <= limit
  {
    EnterKeys(s, like, limit);
    assert |s.idx| == |s.idx.Keys|;
    assert |s.idx.Keys + {KeyOf(like)}| <= |s.idx.Keys| + 1;
    assert |Enter(s, like, limit).idx| == |Enter(s, like, limit).idx.Keys|;
  }

  /** One like: the body of the inner loop.  `go` is its flag. */
  method Consider(s: State, like: Like, limit: nat) returns (s': State, go: bool)
    requires |s.idx| <= limit && 0 < limit && InStep(s)
    ensures s' == if Enters(s, like, limit) then Enter(s, like, limit) else s
    ensures go == (Enters(s, like, limit) || GoesOn(s, like, limit))
    ensures |s'.idx| <= limit && InStep(s')
  {
    var key, value := KeyOf(like), ValueOf(like);
    var idx: map<Key, Value>, hash: map<nat, Key> := s.idx, s.hash;
    go := true;
    if (|idx| < limit || Less(key, Last(idx.Keys))) && (like.person !in hash || Less(key, hash[like.person])) {
      idx := idx[key := value];
      if like.person !in hash {
        hash := hash[like.person := key];
        while |idx| > limit
          invariant |idx| <= limit + 1
          invariant State(idx, hash) == Enter(s, like, limit) || (|idx| == limit + 1 && idx == s.idx[key := value]
                      && hash == s.hash[like.person := key])
          decreases |idx|
        {
          var last := Last(idx.Keys);
          hash := hash - {last.id};
          idx := idx - {last};
        }
      } else {
        idx := idx - {hash[like.person]};
        hash := hash[like.person := key];
      }
    } else {
      go := |idx| < limit || key.neg < Last(idx.Keys).neg;
    }
    s' := State(idx, hash);
    if Enters(s, like, limit) {
      EnterInStep(s, like, limit);
      EnterSize(s, like, limit);
    }
  }

  lemma EmptyInStep()
    ensures InStep(State(map[], map[]))
  {
  }

  ghost function LikesOf(lists: seq<seq<Like>>): (likes: set<Like>)
    ensures forall l :: l in likes <==> exists list :: list in lists && l in list
  {
    if lists == [] then {} else (set l | l in lists[0]) + LikesOf(lists[1..])
  }

  lemma ScanStands(lists: seq<seq<Like>>, limit: nat)
    ensures var s := Scan(lists, limit);
      forall k :: k in s.idx ==> exists list, l :: list in lists && l in list && Stands(k, s.idx[k], l)
  {
    hide Scan, Stands;
    ScanIsReal(lists, limit);
  }

  lemma ScanIsReal(lists: seq<seq<Like>>, limit: nat)
    ensures Real(Scan(lists, limit), LikesOf(lists))
  {
    ScanReal(State(map[], map[]), lists, limit, LikesOf(lists));
  }

  /** The two passes over the likes of posts and of comments. */
  method TopLikers(posts: seq<seq<Like>>, comments: seq<seq<Like>>, limit: nat) returns (s: State)
    requires 0 < limit
    ensures s == Scan(posts + comments, limit)
    ensures InStep(s)
    ensures forall k :: k in s.idx ==> exists list, l :: list in posts + comments && l in list && Stands(k, s.idx[k], l)
    ensures (forall list :: list in posts + comments ==> TieFree(list)) ==>
      IsTop(s.idx.Keys, Bests(AllKeys(posts + comments)), limit)
    ensures (forall list :: list in posts + comments ==> Descending(list, KeyOf)) ==>
      IsTopByDate(s.idx.Keys, Bests(AllKeys(posts + comments)), limit)
  {
    hide Enters, Enter, GoesOn, InStep, Bests, IsTop, IsTopByDate, TieFree, Descending;
    var lists, i := posts + comments, 0;
    assert InStep(State(map[], map[])) by { EmptyInStep(); }
    s := State(map[], map[]);
    while i < |lists|
      invariant i <= |lists| && |s.idx| <= limit && InStep(s)
      invariant ScanAll(s, lists[i..], limit) == Scan(lists, limit)
    {
      var nbrs, j, flag := lists[i], 0, true;
      ghost var s0 := s;
      while j < |nbrs| && flag
        invariant j <= |nbrs| && |s.idx| <= limit && InStep(s)
        invariant (if flag then ScanList(s, nbrs[j..], limit) else s) == ScanList(s0, nbrs, limit)
      {
        assert nbrs[j..][0] == nbrs[j] && nbrs[j..][1..] == nbrs[j + 1..];
        s, flag := Consider(s, nbrs[j], limit);
        j := j + 1;
      }
      assert lists[i..][0] == nbrs && lists[i..][1..] == lists[i + 1..];
      i := i + 1;
    }
    ScanStands(lists, limit);
    if forall list :: list in lists ==> TieFree(list) {
      ScanExact(lists, limit);
    }
    if forall list :: list in lists ==> Descending(list, KeyOf) {
      ScanUpToTies(lists, limit);
    }
  }
}
