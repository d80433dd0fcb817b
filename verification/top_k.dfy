/** Ordered keys and the smallest `limit` of a set of them. */
module TopK {
  /** The date with its sign turned, so that newer is smaller, and an id to break ties. */
  datatype Key = Key(neg: int, id: nat)

  predicate Less(a: Key, b: Key) {
    a.neg < b.neg || (a.neg == b.neg && a.id < b.id)
  }

  /** A list of things with keys is newest first. */
  ghost predicate Descending<T(!new)>(list: seq<T>, key: T -> Key) {
    forall i, j :: 0 <= i < j < |list| ==> key(list[i]).neg <= key(list[j]).neg
  }

  ghost predicate StrictlyDescending<T(!new)>(list: seq<T>, key: T -> Key) {
    forall i, j :: 0 <= i < j < |list| ==> key(list[i]).neg < key(list[j]).neg
  }

  predicate Greatest(s: set<Key>, k: Key) {
    k in s && forall m :: m in s ==> m == k || Less(m, k)
  }

  lemma {:induction false} GreatestExists(s: set<Key>) returns (k: Key)
    requires s != {}
    ensures Greatest(s, k)
  {
    k :| k in s;
    var rest := s - {k};
    assert s == rest + {k};
    if rest != {} {
      var last := GreatestExists(rest);
      if Less(k, last) {
        k := last;
      }
    }
  }

  lemma LastExists(s: set<Key>)
    requires s != {}
    ensures exists k :: Greatest(s, k)
  {
    var k := GreatestExists(s);
  }

  /** The greatest key: rbegin() of an ordered map. */
  function Last(s: set<Key>): (k: Key)
    requires s != {}
    ensures Greatest(s, k)
  {
    LastExists(s);
    var k :| k in s && Greatest(s, k);
    k
  }

  /** `top` is what remains of `all` when only the `limit` smallest keys are kept. */
  ghost predicate IsTop(top: set<Key>, all: set<Key>, limit: nat) {
    && top <= all && |top| <= limit && (top == all || |top| == limit)
    && (forall t, u :: t in top && u in all && u !in top ==> Less(t, u))
  }

  /** The same up to ties: nothing left out is newer than anything kept. */
  ghost predicate IsTopByDate(top: set<Key>, all: set<Key>, limit: nat) {
    && top <= all && |top| <= limit && (top == all || |top| == limit)
    && (forall t, u :: t in top && u in all && u !in top ==> t.neg <= u.neg)
  }

  /** What an ordered map of at most `limit` keys becomes when a key is emplaced. */
  function Keep(top: set<Key>, k: Key, limit: nat): set<Key> {
    var more := top + {k};
    if |more| > limit then more - {Last(more)} else more
  }

  /** There is only one such set. */
  lemma TopUnique(a: set<Key>, b: set<Key>, all: set<Key>, limit: nat)
    requires IsTop(a, all, limit) && IsTop(b, all, limit)
    ensures a == b
  {
    if x :| x in a && x !in b {
      assert b < a by {
        assert forall y :: y in b ==> Less(y, x);
        assert forall y :: y in b && y !in a ==> Less(x, y);
      }
      SmallerSubset(b, a);
    }
    if x :| x in b && x !in a {
      assert a < b by {
        assert forall y :: y in a ==> Less(y, x);
        assert forall y :: y in a && y !in b ==> Less(x, y);
      }
      SmallerSubset(a, b);
    }
  }

  lemma SmallerSubset(a: set<Key>, b: set<Key>)
    requires a < b
    ensures |a| < |b|
  {
    assert b == a + (b - a);
    var x :| x in b - a;
    assert |b - a| > 0;
  }

  lemma KeepFull(top: set<Key>, all: set<Key>, k: Key, limit: nat)
    requires IsTop(top, all, limit) && |top| == limit && k !in top && k !in all
    ensures IsTop(Keep(top, k, limit), all + {k}, limit)
  {
    var more := top + {k};
    assert |more| == limit + 1;
    var last := Last(more);
    var kept := more - {last};
    assert more == kept + {last};
    forall t, u | t in kept && u in all + {k} && u !in kept
      ensures Less(t, u)
    {
      assert Less(t, last);
      if u != last && t == k {
        assert last in top && u in all && u !in top && Less(last, u);
      }
    }
  }

  lemma KeepRoom(top: set<Key>, all: set<Key>, k: Key, limit: nat)
    requires IsTop(top, all, limit) && |top| < limit
    ensures IsTop(Keep(top, k, limit), all + {k}, limit)
  {
    assert |top + {k}| <= |top| + 1;
  }

  lemma KeepSame(top: set<Key>, all: set<Key>, k: Key, limit: nat)
    requires IsTop(top, all, limit) && k in top
    ensures IsTop(Keep(top, k, limit), all + {k}, limit)
  {
    assert top + {k} == top && all + {k} == all;
  }

  lemma Reject(top: set<Key>, all: set<Key>, k: Key, limit: nat)
    requires IsTop(top, all, limit) && top != {} && |top| >= limit && !Less(k, Last(top))
    ensures IsTop(top, all + {k}, limit)
  {
    forall t | t in top && k !in top
      ensures Less(t, k)
    {
      assert t == Last(top) || Less(t, Last(top));
    }
  }

  /** A new key either goes in, displacing the last one if there is no room, or is too big. */
  lemma KeepTop(top: set<Key>, all: set<Key>, k: Key, limit: nat)
    requires IsTop(top, all, limit) && (k in all ==> k in top)
    ensures IsTop(Keep(top, k, limit), all + {k}, limit)
    ensures top != {} && |top| >= limit && !Less(k, Last(top)) ==> IsTop(top, all + {k}, limit)
  {
    hide IsTop, Keep, Last;
    if k in top {
      KeepSame(top, all, k, limit);
    } else if |top| < limit {
      KeepRoom(top, all, k, limit);
    } else {
      assert |top| == limit by { TopSize(top, all, limit); }
      KeepFull(top, all, k, limit);
    }
    if top != {} && |top| >= limit && !Less(k, Last(top)) {
      Reject(top, all, k, limit);
    }
  }

  lemma TopSize(top: set<Key>, all: set<Key>, limit: nat)
    requires IsTop(top, all, limit)
    ensures |top| <= limit
  {
  }

  /** No skipped key would have entered: all of them are at least as old as everything kept,
      or even come after it, ties included. */
  ghost predicate Behind(top: set<Key>, skipped: set<Key>, exact: bool) {
    forall k, d :: k in top && d in skipped ==> if exact then Less(k, d) else k.neg <= d.neg
  }

  lemma BehindLess(top: set<Key>, less: set<Key>, skipped: set<Key>, exact: bool)
    requires Behind(top, skipped, exact) && less <= top
    ensures Behind(less, skipped, exact)
  {
  }

  lemma BehindMore(top: set<Key>, t: Key, k: Key, skipped: set<Key>, exact: bool)
    requires Behind(top, skipped, exact) && t in top && Less(k, t)
    ensures Behind(top + {k}, skipped, exact)
  {
    forall d | d in skipped
      ensures if exact then Less(k, d) else k.neg <= d.neg
    {
      assert if exact then Less(t, d) else t.neg <= d.neg;
    }
  }

  lemma NothingBehind(top: set<Key>, exact: bool)
    ensures Behind(top, {}, exact)
  {
  }

  /** A key moves from what is still to come to what has been looked at, and the rest to it or
      to what is skipped. */
  lemma Moved(looked: set<Key>, skipped: set<Key>, k: Key, rest: set<Key>)
    ensures looked + {k} + skipped + rest == looked + skipped + ({k} + rest)
    ensures looked + {k} + (skipped + (rest - (looked + {k}))) == looked + skipped + ({k} + rest)
    ensures {} + rest == rest
  {
  }

  lemma NotTop(top: set<Key>, all: set<Key>, limit: nat, t: Key, u: Key)
    requires t in top && u in all && u !in top && Less(u, t)
    ensures !IsTop(top, all, limit)
  {
  }

  /** The whole of `all` is its only top of that size. */
  lemma TopIsAll(top: set<Key>, all: set<Key>)
    requires IsTop(top, all, |all|)
    ensures top == all
  {
    if top != all {
      SmallerSubset(top, all);
    }
  }
}
