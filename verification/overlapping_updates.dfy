/** Updates 5 to 8 as the store really runs them: each reads a snapshot that may lack the latest
    commits, and of two that overlap no two write the same list.  Each list by itself is safe;
    the values that an update computes from other lists are not always. */
module OverlappingUpdates {
  import opened DerivedValues

  /** The update reads from `snap` and its writes go to `now`. */
  function Commit(now: State, snap: State, step: Step): State {
    match step
    case Update5(p, f, date) =>
      var m := Member(date, CountPosts(snap.messages, ListOf(snap.postsOf, p), f));
      now.(members := now.members[(p, f) := m], memberOf := now.memberOf[(f, p) := m])
    case Update6(v, p, f, k) =>
      var next := now.(messages := now.messages[v := Post(p, f)], postsOf := AddTo(now.postsOf, p, k, v));
      if (p, f) in snap.members then
        var m := snap.members[(p, f)].(posts := snap.members[(p, f)].posts + 1);
        next.(members := now.members[(p, f) := m], memberOf := now.memberOf[(f, p) := m])
      else next
    case Update7(v, p, post, comment, k) =>
      var c := Comment(p, post, comment);
      if Parent(c) in snap.messages then
        var next := now.(messages := now.messages[v := c], commentsOf := AddTo(now.commentsOf, p, k, v));
        var q := snap.messages[Parent(c)].creator;
        if (p, q) in snap.knows then
          var e := snap.knows[(p, q)].(weight := snap.knows[(p, q)].weight + Share(c));
          next.(knows := now.knows[(p, q) := e][(q, p) := e])
        else next
      else now
    case Update8(left, right, since) =>
      var there := SumReplies(snap.messages, ListOf(snap.commentsOf, left), right);
      var back := SumReplies(snap.messages, ListOf(snap.commentsOf, right), left);
      var e := Friend(since, there + back);
      now.(knows := now.knows[(left, right) := e][(right, left) := e])
  }

  /** An update that misses nothing. */
  lemma CommitSerial(s: State, step: Step)
    ensures Commit(s, s, step) == Apply(s, step)
  {
    hide CountPosts, SumReplies, AddTo, ListOf;
  }

  /** The lists of the store, one per vertex and label. */
  datatype ListKey =
    | Posts(p: Vertex) | Comments(p: Vertex) | Forums(p: Vertex) | Members(f: Vertex) | Friends(p: Vertex)

  predicate HasParent(s: State, step: Step) {
    step.Update7? && Parent(Comment(step.p, step.replyOfPost, step.replyOfComment)) in s.messages
  }

  /** Whom update 7 replies to. */
  function Partner(s: State, step: Step): Vertex
    requires HasParent(s, step)
  {
    s.messages[Parent(Comment(step.p, step.replyOfPost, step.replyOfComment))].creator
  }

  /** The lists that the update writes when it reads `snap`. */
  function Writes(snap: State, step: Step): set<ListKey> {
    match step
    case Update5(p, f, _) => {Forums(p), Members(f)}
    case Update6(_, p, f, _) => {Posts(p)} + if (p, f) in snap.members then {Forums(p), Members(f)} else {}
    case Update7(_, p, _, _, _) =>
      if !HasParent(snap, step) then {}
      else
        var q := Partner(snap, step);
        {Comments(p)} + if (p, q) in snap.knows then {Friends(p), Friends(q)} else {}
    case Update8(left, right, _) => {Friends(left), Friends(right)}
  }

  predicate MakesNew(step: Step) {
    step.Update6? || step.Update7?
  }

  predicate Names(step: Step, v: Vertex) {
    step.Update7? && (step.replyOfPost == v || step.replyOfComment == v)
  }

  /** New vertices are nobody else's, and nobody knows them yet. */
  predicate Unrelated(a: Step, b: Step) {
    && (MakesNew(a) && MakesNew(b) ==> a.v != b.v)
    && (MakesNew(a) ==> !Names(b, a.v))
    && (MakesNew(b) ==> !Names(a, b.v))
  }

  /** One of the two sums up what the other one adds to: a count and a new post, or a weight and
      a new reply. */
  predicate OneOverlooks(s: State, x: Step, y: Step) {
    || (x.Update5? && y.Update6? && x.p == y.p && x.f == y.f)
    || (x.Update8? && HasParent(s, y)
        && ((y.p == x.left && Partner(s, y) == x.right) || (y.p == x.right && Partner(s, y) == x.left)))
  }

  predicate Overlooks(s: State, a: Step, b: Step) {
    OneOverlooks(s, a, b) || OneOverlooks(s, b, a)
  }

  /** What update `b` reads is the same in both states. */
  ghost predicate SameReads(s: State, s': State, b: Step) {
    match b
    case Update5(p, f, _) => |PostsIn(s'.messages, p, f)| == |PostsIn(s.messages, p, f)|
    case Update6(_, p, f, _) =>
      && ((p, f) in s'.members <==> (p, f) in s.members)
      && ((p, f) in s.members ==> s'.members[(p, f)] == s.members[(p, f)])
    case Update7(_, p, _, _, _) =>
      && (HasParent(s', b) <==> HasParent(s, b))
      && (HasParent(s, b) ==>
            var q := Partner(s, b);
            && Partner(s', b) == q && ((p, q) in s'.knows <==> (p, q) in s.knows)
            && ((p, q) in s.knows ==> s'.knows[(p, q)] == s.knows[(p, q)]))
    case Update8(left, right, _) => Weight(s'.messages, left, right) == Weight(s.messages, left, right)
  }

  lemma SameReadsThen(s: State, s': State, s'': State, b: Step)
    requires SameReads(s, s', b) && SameReads(s', s'', b)
    ensures SameReads(s, s'', b)
  {
    hide PostsIn, Weight, Parent;
  }

  lemma SameReadsSelf(s: State, b: Step)
    ensures SameReads(s, s, b)
  {
  }

  lemma SameWrites(s: State, s': State, b: Step)
    requires SameReads(s, s', b)
    ensures Writes(s', b) == Writes(s, b)
  {
    hide PostsIn, Weight, Parent;
  }

  /** An update whose reads have not changed does what it would do now. */
  lemma CommitIsApply(now: State, snap: State, b: Step)
    requires ListsOk(now) && ListsOk(snap) && SameReads(snap, now, b)
    ensures Commit(now, snap, b) == Apply(now, b)
  {
    hide CountPosts, SumReplies, AddTo, ListOf, ListsOk, PostsIn, OneWay;
    match b {
      case Update5(p, f, _) =>
        CountIsDefined(snap, p, f);
        CountIsDefined(now, p, f);
      case Update6(_, _, _, _) =>
      case Update7(_, _, _, _, _) =>
      case Update8(left, right, _) =>
        SumIsDefined(snap, left, right);
        SumIsDefined(snap, right, left);
        SumIsDefined(now, left, right);
        SumIsDefined(now, right, left);
    }
  }

  // ---------------------------------------------------------------------------
  // What one update leaves alone.

  lemma PostsReads(s: State, a: Step, p: Vertex, f: Vertex)
    requires Enabled(s, a)
    ensures |PostsIn(Apply(s, a).messages, p, f)|
         == |PostsIn(s.messages, p, f)| + if a.Update6? && a.p == p && a.f == f then 1 else 0
  {
    hide PostsIn, AddTo, CountPosts, SumReplies;
    match a {
      case Update5(_, _, _) =>
      case Update6(v, q, g, _) => PostsInAdd(s.messages, v, Post(q, g), p, f);
      case Update7(v, q, post, comment, _) => PostsInAdd(s.messages, v, Comment(q, post, comment), p, f);
      case Update8(_, _, _) =>
    }
  }

  lemma NamedIsWired(s: State, a: Step)
    requires ListsOk(s) && Enabled(s, a) && HasParent(s, a)
    ensures Wired(s.messages, Comment(a.p, a.replyOfPost, a.replyOfComment)) && Rooted(s.messages)
  {
  }

  lemma WeightReads(s: State, a: Step, left: Vertex, right: Vertex)
    requires ListsOk(s) && Enabled(s, a) && left != right
    ensures Weight(Apply(s, a).messages, left, right) == Weight(s.messages, left, right)
      + if OneOverlooks(s, Update8(left, right, 0), a) then Share(Comment(a.p, a.replyOfPost, a.replyOfComment))
        else 0.0
  {
    hide Weight, AddTo, CountPosts, SumReplies, Share;
    match a {
      case Update5(_, _, _) =>
      case Update6(v, q, g, _) =>
        ListsRooted(s);
        SameWeights(s.messages, v, Post(q, g));
      case Update7(v, q, post, comment, _) =>
        if HasParent(s, a) {
          NamedIsWired(s, a);
          WeightAdd(s.messages, v, Comment(q, post, comment), left, right);
        }
      case Update8(_, _, _) =>
    }
  }

  lemma SelfWeightReads(s: State, a: Step, p: Vertex)
    requires ListsOk(s) && Enabled(s, a) && !OneOverlooks(s, Update8(p, p, 0), a)
    ensures Weight(Apply(s, a).messages, p, p) == Weight(s.messages, p, p)
  {
    hide Weight, AddTo, CountPosts, SumReplies, Share;
    match a {
      case Update5(_, _, _) =>
      case Update6(v, q, g, _) =>
        ListsRooted(s);
        SameWeights(s.messages, v, Post(q, g));
      case Update7(v, q, post, comment, _) =>
        if HasParent(s, a) {
          NamedIsWired(s, a);
          SelfReplyAdds(s, v, Comment(q, post, comment), p);
        }
      case Update8(_, _, _) =>
    }
  }

  lemma MemberReads(s: State, a: Step, b: Step)
    requires b.Update6? && Writes(s, a) !! Writes(s, b) && !Overlooks(s, b, a)
    ensures SameReads(s, Apply(s, a), b)
  {
    hide AddTo, CountPosts, SumReplies;
    assert a.Update6? ==> a.p != b.p by {
      assert a.Update6? ==> Posts(a.p) in Writes(s, a);
      assert Posts(b.p) in Writes(s, b);
    }
  }

  lemma ReplyReads(s: State, a: Step, b: Step)
    requires b.Update7? && Writes(s, a) !! Writes(s, b) && !Overlooks(s, b, a) && Unrelated(a, b)
    requires Enabled(s, a) && FriendsOk(s)
    ensures SameReads(s, Apply(s, a), b)
  {
    hide AddTo, CountPosts, SumReplies, Weight, Share;
    if HasParent(s, b) {
      var q := Partner(s, b);
      assert Comments(b.p) in Writes(s, b);
      if (b.p, q) in s.knows {
        assert Friends(b.p) in Writes(s, b) && Friends(q) in Writes(s, b);
      }
    }
  }

  lemma StillEnabled(s: State, a: Step, b: Step)
    requires Enabled(s, a) && Enabled(s, b) && Unrelated(a, b)
    ensures Enabled(Apply(s, a), b)
  {
    hide AddTo, CountPosts, SumReplies, Share;
  }

  /** Of two updates that write different lists and do not overlook each other, the first one to
      commit changes nothing that the other one has read. */
  lemma ReadsKept(s: State, a: Step, b: Step)
    requires Inv(s) && Enabled(s, a) && Enabled(s, b) && Unrelated(a, b)
    requires Writes(s, a) !! Writes(s, b) && !Overlooks(s, b, a)
    ensures SameReads(s, Apply(s, a), b) && Enabled(Apply(s, a), b)
  {
    hide Writes, Apply, PostsIn, Weight, Enabled, ListsOk, MembersOk, FriendsOk;
    StillEnabled(s, a, b);
    match b {
      case Update5(p, f, _) => PostsReads(s, a, p, f);
      case Update6(_, _, _, _) => MemberReads(s, a, b);
      case Update7(_, _, _, _, _) => ReplyReads(s, a, b);
      case Update8(left, right, _) =>
        if left == right {
          SelfWeightReads(s, a, left);
        } else {
          WeightReads(s, a, left, right);
        }
    }
  }

  // ---------------------------------------------------------------------------
  // Two updates from one snapshot.

  /** They overlook each other, and not just a person's friendship with themselves. */
  predicate Loses(s: State, a: Step, b: Step) {
    Overlooks(s, a, b) && (a.Update8? ==> a.left != a.right) && (b.Update8? ==> b.left != b.right)
  }

  lemma JoinMissesPost(s: State, a: Step, b: Step)
    requires Inv(s) && Enabled(s, a) && Enabled(s, b) && Writes(s, a) !! Writes(s, b)
    requires a.Update5? && b.Update6? && OneOverlooks(s, a, b)
    ensures !Inv(Commit(Apply(s, a), s, b)) && !Inv(Commit(Apply(s, b), s, a))
  {
    hide AddTo, SumReplies, ListsOk, FriendsOk, CountPosts, PostsIn;
    assert (a.p, a.f) !in s.members by {
      assert Forums(a.p) in Writes(s, a);
    }
    CountIsDefined(s, a.p, a.f);
    PostsReads(s, b, a.p, a.f);
    var first, second := Commit(Apply(s, a), s, b), Commit(Apply(s, b), s, a);
    assert first.members[(a.p, a.f)].posts == |PostsIn(s.messages, a.p, a.f)|;
    assert second.members[(a.p, a.f)].posts == |PostsIn(s.messages, a.p, a.f)|;
    assert first.messages == Apply(s, b).messages && second.messages == Apply(s, b).messages;
  }

  lemma FriendMissesReply(s: State, a: Step, b: Step)
    requires Inv(s) && Enabled(s, a) && Enabled(s, b) && Writes(s, a) !! Writes(s, b)
    requires a.Update8? && a.left != a.right && OneOverlooks(s, a, b)
    ensures !Inv(Commit(Apply(s, a), s, b)) && !Inv(Commit(Apply(s, b), s, a))
  {
    hide AddTo, CountPosts, SumReplies, ListsOk, MembersOk, Weight, OneWay;
    assert (b.p, Partner(s, b)) !in s.knows by {
      assert Friends(b.p) in Writes(s, a);
    }
    var l, r := a.left, a.right;
    WeightReads(s, b, l, r);
    assert OneOverlooks(s, Update8(l, r, 0), b);
    SumsAreWeight(s, l, r);
    var first, second := Commit(Apply(s, a), s, b), Commit(Apply(s, b), s, a);
    assert first.knows[(l, r)].weight == Weight(s.messages, l, r);
    assert second.knows[(l, r)].weight == Weight(s.messages, l, r);
    assert first.messages == Apply(s, b).messages && second.messages == Apply(s, b).messages;
  }

  lemma SumsAreWeight(s: State, l: Vertex, r: Vertex)
    requires ListsOk(s)
    ensures SumReplies(s.messages, ListOf(s.commentsOf, l), r) + SumReplies(s.messages, ListOf(s.commentsOf, r), l)
         == Weight(s.messages, l, r)
  {
    hide SumReplies, OneWay, ListsOk, ListOf;
    SumIsDefined(s, l, r);
    SumIsDefined(s, r, l);
  }

  /** Nothing is promised of a friendship with oneself. */
  lemma SelfIrrelevant(s: State, s': State, p: Vertex)
    requires Inv(s) && s' == s.(knows := s'.knows) && s'.knows.Keys == s.knows.Keys
    requires forall k :: k in s.knows && k != (p, p) ==> s'.knows[k] == s.knows[k]
    ensures Inv(s')
  {
    hide Weight, PostsIn, ListsOk, MembersOk;
    SameButKnows(s, s');
  }

  lemma SameButKnows(s: State, s': State)
    requires ListsOk(s) && MembersOk(s) && s' == s.(knows := s'.knows)
    ensures ListsOk(s') && MembersOk(s')
  {
    hide PostsIn, NoRepeats, Rooted;
  }

  lemma SelfOverlap(s: State, a: Step, b: Step)
    requires Inv(s) && Enabled(s, a) && Enabled(s, b) && Writes(s, a) !! Writes(s, b) && Unrelated(a, b)
    requires a.Update8? && a.left == a.right && OneOverlooks(s, a, b)
    ensures Inv(Commit(Apply(s, a), s, b)) && Inv(Commit(Apply(s, b), s, a))
  {
    hide AddTo, CountPosts, SumReplies, Inv, ListOf, Enabled;
    var p := a.left;
    assert (p, p) !in s.knows by {
      assert Friends(p) in Writes(s, a);
    }
    ApplyKeeps(s, a);
    StillEnabled(s, a, b);
    ApplyKeeps(Apply(s, a), b);
    SelfIrrelevant(Apply(Apply(s, a), b), Commit(Apply(s, a), s, b), p);
    ApplyKeeps(s, b);
    UnrelatedTurned(a, b);
    StillEnabled(s, b, a);
    ApplyKeeps(Apply(s, b), a);
    SelfIrrelevant(Apply(Apply(s, b), a), Commit(Apply(s, b), s, a), p);
  }

  lemma UnrelatedTurned(a: Step, b: Step)
    requires Unrelated(a, b)
    ensures Unrelated(b, a)
  {
  }

  /** Two updates that start from one snapshot and write different lists, so that both commit:
      all stored values are right afterwards if and only if neither overlooks the other. */
  lemma OverlapIff(s: State, a: Step, b: Step)
    requires Inv(s) && Enabled(s, a) && Enabled(s, b) && Unrelated(a, b) && Writes(s, a) !! Writes(s, b)
    ensures Inv(Commit(Apply(s, a), s, b)) <==> !Loses(s, a, b)
  {
    hide Inv, Enabled, Writes, Commit, Apply, Unrelated, OneOverlooks;
    if !Overlooks(s, a, b) {
      ReadsKept(s, a, b);
      ApplyKeeps(s, a);
      InvLists(s);
      InvLists(Apply(s, a));
      CommitIsApply(Apply(s, a), s, b);
      ApplyKeeps(Apply(s, a), b);
    } else if OneOverlooks(s, a, b) {
      PairOverlooks(s, a, b);
    } else {
      UnrelatedTurned(a, b);
      PairOverlooks(s, b, a);
    }
  }

  lemma InvLists(s: State)
    requires Inv(s)
    ensures ListsOk(s)
  {
  }

  lemma PairOverlooks(s: State, a: Step, b: Step)
    requires Inv(s) && Enabled(s, a) && Enabled(s, b) && Unrelated(a, b) && Writes(s, a) !! Writes(s, b)
    requires OneOverlooks(s, a, b)
    ensures Inv(Commit(Apply(s, a), s, b)) <==> a.Update8? && a.left == a.right
    ensures Inv(Commit(Apply(s, b), s, a)) <==> a.Update8? && a.left == a.right
    ensures !b.Update8?
  {
    hide Inv, Enabled, Writes, Commit, Apply, Unrelated;
    if a.Update5? {
      JoinMissesPost(s, a, b);
    } else if a.left == a.right {
      SelfOverlap(s, a, b);
    } else {
      FriendMissesReply(s, a, b);
    }
  }

  /** It does happen: `r` has written a post, `l` replies to it while the two become friends,
      and whichever commits first, the reply is missing from the weight. */
  lemma ReplyCanBeLost(l: Vertex, r: Vertex)
    requires l != r
    ensures var s, a, b := Apply(NoData, Update6(0, r, 0, 0)), Update8(l, r, 0), Update7(1, l, 0, -1, 0);
      && Inv(s) && Enabled(s, a) && Enabled(s, b) && Unrelated(a, b) && Writes(s, a) !! Writes(s, b)
      && !Inv(Commit(Apply(s, a), s, b)) && !Inv(Commit(Apply(s, b), s, a))
  {
    hide Inv, Commit;
    var s, a, b := Apply(NoData, Update6(0, r, 0, 0)), Update8(l, r, 0), Update7(1, l, 0, -1, 0);
    NoDataInv();
    ApplyKeeps(NoData, Update6(0, r, 0, 0));
    assert s.messages == map[0 := Post(r, 0)];
    FriendMissesReply(s, a, b);
  }

  // ---------------------------------------------------------------------------
  // Whole histories.

  /** An update and how many commits its snapshot contains. */
  datatype Update = Update(step: Step, seen: nat)

  /** The state after a history of updates, in the order in which they commit. */
  function After(s: State, h: seq<Update>): State
    decreases |h|
  {
    if h == [] then s
    else
      var u, front := h[|h| - 1], h[..|h| - 1];
      Commit(After(s, front), After(s, if u.seen <= |front| then front[..u.seen] else front), u.step)
  }

  function StateAt(s: State, h: seq<Update>, i: nat): State
    requires i <= |h|
  {
    After(s, h[..i])
  }

  lemma StateStep(s: State, h: seq<Update>, i: nat)
    requires i < |h| && h[i].seen <= i
    ensures StateAt(s, h, i + 1) == Commit(StateAt(s, h, i), StateAt(s, h, h[i].seen), h[i].step)
  {
    hide Commit;
    assert h[..i + 1][..i] == h[..i] && h[..i][..h[i].seen] == h[..h[i].seen];
  }

  /** Commit `j` came after update `i` began and before it committed. */
  predicate Concurrent(h: seq<Update>, j: nat, i: nat) {
    j < i < |h| && h[i].seen <= j
  }

  /** What the store lets happen: everybody can do what its snapshot allows, and of two that
      overlap no two write one list. */
  ghost predicate FirstCommitters(s: State, h: seq<Update>) {
    && (forall i :: 0 <= i < |h| ==> h[i].seen <= i && Enabled(StateAt(s, h, h[i].seen), h[i].step))
    && (forall j: nat, i: nat :: Concurrent(h, j, i) ==> Unrelated(h[j].step, h[i].step))
    && (forall j: nat, i: nat :: Concurrent(h, j, i) && h[j].seen <= |h| && h[i].seen <= |h| ==>
          Writes(StateAt(s, h, h[j].seen), h[j].step) !! Writes(StateAt(s, h, h[i].seen), h[i].step))
  }

  /** Updates that overlook each other do not overlap: one has the other in its snapshot. */
  ghost predicate NoneOverlooked(s: State, h: seq<Update>) {
    forall j: nat, i: nat :: Concurrent(h, j, i) ==> !Overlooks(StateAt(s, h, j), h[i].step, h[j].step)
  }

  /** Up to `m`, nothing that update `i` read has changed since its snapshot. */
  lemma {:induction false} ReadsUpTo(s: State, h: seq<Update>, i: nat, m: nat)
    requires Inv(s) && FirstCommitters(s, h) && NoneOverlooked(s, h) && i < |h| && h[i].seen <= m <= i
    ensures Inv(StateAt(s, h, m)) && SameReads(StateAt(s, h, h[i].seen), StateAt(s, h, m), h[i].step)
    ensures Enabled(StateAt(s, h, m), h[i].step)
    decreases i, m + 1
  {
    hide Inv, SameReads, Enabled, Writes, Overlooks, Unrelated, StateAt, Apply;
    HistoryInv(s, h, m);
    var b := h[i].step;
    if m == h[i].seen {
      SameReadsSelf(StateAt(s, h, m), b);
    } else {
      var j := m - 1;
      assert Concurrent(h, j, i);
      var a, before, now := h[j].step, StateAt(s, h, h[i].seen), StateAt(s, h, j);
      ReadsUpTo(s, h, i, j);
      ReadsUpTo(s, h, j, j);
      HistoryStep(s, h, j);
      SameWrites(before, now, b);
      SameWrites(StateAt(s, h, h[j].seen), now, a);
      ReadsKept(now, a, b);
      SameReadsThen(before, now, StateAt(s, h, m), b);
    }
  }

  /** Each update has the effect that it would have had alone. */
  lemma {:induction false} HistoryStep(s: State, h: seq<Update>, i: nat)
    requires Inv(s) && FirstCommitters(s, h) && NoneOverlooked(s, h) && i < |h|
    ensures Inv(StateAt(s, h, i)) && Enabled(StateAt(s, h, i), h[i].step)
    ensures StateAt(s, h, i + 1) == Apply(StateAt(s, h, i), h[i].step)
    decreases i, i + 2
  {
    hide Inv, SameReads, Enabled, Writes, Overlooks, Unrelated, StateAt, Apply, Commit;
    ReadsUpTo(s, h, i, i);
    HistoryInv(s, h, h[i].seen);
    StateStep(s, h, i);
    InvLists(StateAt(s, h, i));
    InvLists(StateAt(s, h, h[i].seen));
    CommitIsApply(StateAt(s, h, i), StateAt(s, h, h[i].seen), h[i].step);
  }

  lemma {:induction false} HistoryInv(s: State, h: seq<Update>, m: nat)
    requires Inv(s) && FirstCommitters(s, h) && NoneOverlooked(s, h) && m <= |h|
    ensures Inv(StateAt(s, h, m))
    decreases m, 0
  {
    hide Inv, Enabled, Writes, Overlooks, Unrelated, Apply, Commit;
    if m > 0 {
      HistoryStep(s, h, m - 1);
      ApplyKeeps(StateAt(s, h, m - 1), h[m - 1].step);
    }
  }

  function StepsOf(h: seq<Update>): (steps: seq<Step>)
    ensures |steps| == |h|
  {
    if h == [] then [] else StepsOf(h[..|h| - 1]) + [h[|h| - 1].step]
  }

  lemma {:induction false} HistoryIsRun(s: State, h: seq<Update>, m: nat)
    requires Inv(s) && FirstCommitters(s, h) && NoneOverlooked(s, h) && m <= |h|
    ensures StateAt(s, h, m) == Run(s, StepsOf(h[..m]))
  {
    hide Inv, Enabled, Writes, Overlooks, Unrelated, Apply, Commit, FirstCommitters, NoneOverlooked;
    if m > 0 {
      HistoryIsRun(s, h, m - 1);
      HistoryStep(s, h, m - 1);
      assert h[..m][..m - 1] == h[..m - 1];
      var steps := StepsOf(h[..m - 1]);
      assert (steps + [h[m - 1].step])[..m - 1] == steps;
    }
  }

  /** As long as updates that overlook each other do not overlap, a history under the store's
      isolation has the effect of the serial run in commit order, and all stored counts and
      weights are what their definitions say. */
  lemma HistoriesKeepDefinitions(s: State, h: seq<Update>)
    requires Inv(s) && FirstCommitters(s, h) && NoneOverlooked(s, h)
    ensures After(s, h) == Run(s, StepsOf(h)) && Inv(After(s, h))
  {
    hide Inv, FirstCommitters, NoneOverlooked, Run;
    assert h[..|h|] == h;
    HistoryIsRun(s, h, |h|);
    HistoryInv(s, h, |h|);
  }
}
