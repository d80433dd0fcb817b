/** The values that updates 5 to 8 store redundantly: how many posts a member has in a forum,
    and how much two friends have replied to each other. */
module DerivedValues {
  type Vertex = nat

  /** A comment replies to the post if it names one, otherwise to the comment. */
  datatype Message =
    | Post(creator: Vertex, forum: Vertex)
    | Comment(creator: Vertex, replyOfPost: int, replyOfComment: int)

  datatype Member = Member(joinDate: int, posts: nat)

  datatype Friend = Friend(since: int, weight: real)

  datatype State = State(
    messages: map<Vertex, Message>,
    postsOf: map<Vertex, seq<Vertex>>,
    commentsOf: map<Vertex, seq<Vertex>>,
    members: map<(Vertex, Vertex), Member>,
    memberOf: map<(Vertex, Vertex), Member>,
    knows: map<(Vertex, Vertex), Friend>)

  /** The edges of a person under one of the creator labels. */
  function ListOf(lists: map<Vertex, seq<Vertex>>, p: Vertex): seq<Vertex> {
    if p in lists then lists[p] else []
  }

  function Parent(c: Message): int
    requires c.Comment?
  {
    if c.replyOfPost == -1 then c.replyOfComment else c.replyOfPost
  }

  /** What a reply adds: the code takes it for a reply to a post if its parent is the post it
      names. */
  function Share(c: Message): real
    requires c.Comment?
  {
    if Parent(c) == c.replyOfPost then 1.0 else 0.5
  }

  // ---------------------------------------------------------------------------
  // The definitions.

  ghost function PostsIn(messages: map<Vertex, Message>, p: Vertex, f: Vertex): set<Vertex> {
    set v | v in messages && messages[v].Post? && messages[v].creator == p && messages[v].forum == f
  }

  /** The comments of `p` that reply to a message of `q`. */
  predicate RepliesTo(messages: map<Vertex, Message>, v: Vertex, p: Vertex, q: Vertex) {
    && v in messages && messages[v].Comment? && messages[v].creator == p
    && Parent(messages[v]) in messages && messages[Parent(messages[v])].creator == q
  }

  ghost function Replies(messages: map<Vertex, Message>, p: Vertex, q: Vertex, toPosts: bool): set<Vertex> {
    set v | v in messages && RepliesTo(messages, v, p, q) && (toPosts <==> messages[Parent(messages[v])].Post?)
  }

  /** 1.0 per reply of `p` to a post of `q`, 0.5 per reply to a comment. */
  ghost function OneWay(messages: map<Vertex, Message>, p: Vertex, q: Vertex): real {
    |Replies(messages, p, q, true)| as real + 0.5 * (|Replies(messages, p, q, false)| as real)
  }

  ghost function Weight(messages: map<Vertex, Message>, p: Vertex, q: Vertex): real {
    OneWay(messages, p, q) + OneWay(messages, q, p)
  }

  // ---------------------------------------------------------------------------
  // The updates as functions.

  function AddTo(lists: map<Vertex, seq<Vertex>>, p: Vertex, k: nat, v: Vertex): map<Vertex, seq<Vertex>> {
    var l := ListOf(lists, p);
    var n := if k <= |l| then k else |l|;
    lists[p := l[..n] + [v] + l[n..]]
  }

  function CountPosts(messages: map<Vertex, Message>, list: seq<Vertex>, f: Vertex): nat {
    if list == [] then 0
    else
      var v := list[|list| - 1];
      CountPosts(messages, list[..|list| - 1], f)
      + if v in messages && messages[v].Post? && messages[v].forum == f then 1 else 0
  }

  function SumReplies(messages: map<Vertex, Message>, list: seq<Vertex>, q: Vertex): real {
    if list == [] then 0.0
    else
      var v := list[|list| - 1];
      SumReplies(messages, list[..|list| - 1], q)
      + if && v in messages && messages[v].Comment? && Parent(messages[v]) in messages
           && messages[Parent(messages[v])].creator == q
        then Share(messages[v]) else 0.0
  }

  /** update5: a person joins a forum. */
  function Join(s: State, p: Vertex, f: Vertex, joinDate: int): State {
    var m := Member(joinDate, CountPosts(s.messages, ListOf(s.postsOf, p), f));
    s.(members := s.members[(p, f) := m], memberOf := s.memberOf[(f, p) := m])
  }

  /** update6: a new post, somewhere in its creator's list. */
  function AddPost(s: State, v: Vertex, p: Vertex, f: Vertex, k: nat): State {
    var s1 := s.(messages := s.messages[v := Post(p, f)], postsOf := AddTo(s.postsOf, p, k, v));
    if (p, f) in s.members then
      var m := s.members[(p, f)].(posts := s.members[(p, f)].posts + 1);
      s1.(members := s.members[(p, f) := m], memberOf := s.memberOf[(f, p) := m])
    else s1
  }

  /** update7: a new comment on a message. */
  function AddComment(s: State, v: Vertex, p: Vertex, replyOfPost: int, replyOfComment: int, k: nat): State {
    var c := Comment(p, replyOfPost, replyOfComment);
    var s1 := s.(messages := s.messages[v := c], commentsOf := AddTo(s.commentsOf, p, k, v));
    if Parent(c) in s.messages then
      var q := s.messages[Parent(c)].creator;
      if (p, q) in s.knows then
        var e := s.knows[(p, q)].(weight := s.knows[(p, q)].weight + Share(c));
        s1.(knows := s.knows[(p, q) := e][(q, p) := e])
      else s1
    else s
  }

  /** update8: two persons become friends. */
  function Befriend(s: State, left: Vertex, right: Vertex, since: int): State {
    var there := SumReplies(s.messages, ListOf(s.commentsOf, left), right);
    var back := SumReplies(s.messages, ListOf(s.commentsOf, right), left);
    var w := there + back;
    s.(knows := s.knows[(left, right) := Friend(since, w)][(right, left) := Friend(since, w)])
  }

  datatype Step =
    | Update5(p: Vertex, f: Vertex, date: int)
    | Update6(v: Vertex, p: Vertex, f: Vertex, k: nat)
    | Update7(v: Vertex, p: Vertex, replyOfPost: int, replyOfComment: int, k: nat)
    | Update8(left: Vertex, right: Vertex, date: int)

  /** Posts and comments get new vertices; a reply names a post as post, a comment as comment.
      A reply to nothing is turned away by the update itself. */
  predicate Enabled(s: State, step: Step) {
    match step
    case Update6(v, _, _, _) => v !in s.messages
    case Update7(v, _, post, comment, _) => v !in s.messages && Named(s.messages, post, comment)
    case _ => true
  }

  predicate Named(messages: map<Vertex, Message>, post: int, comment: int) {
    (post in messages ==> messages[post].Post?) && (comment in messages ==> messages[comment].Comment?)
  }

  function Apply(s: State, step: Step): State {
    match step
    case Update5(p, f, date) => Join(s, p, f, date)
    case Update6(v, p, f, k) => AddPost(s, v, p, f, k)
    case Update7(v, p, post, comment, k) => AddComment(s, v, p, post, comment, k)
    case Update8(left, right, date) => Befriend(s, left, right, date)
  }

  function Run(s: State, steps: seq<Step>): State {
    if steps == [] then s else Apply(Run(s, steps[..|steps| - 1]), steps[|steps| - 1])
  }

  ghost predicate Possible(s: State, steps: seq<Step>) {
    forall i :: 0 <= i < |steps| ==> Enabled(Run(s, steps[..i]), steps[i])
  }

  // ---------------------------------------------------------------------------
  // The invariant.

  ghost predicate NoRepeats(l: seq<Vertex>) {
    forall i, j :: 0 <= i < j < |l| ==> l[i] != l[j]
  }

  /** The parent of a reply is there, and it is a post exactly if the reply names it as one. */
  ghost predicate Wired(messages: map<Vertex, Message>, c: Message)
    requires c.Comment?
  {
    Parent(c) in messages && (Parent(c) == c.replyOfPost <==> messages[Parent(c)].Post?)
  }

  ghost predicate Rooted(messages: map<Vertex, Message>) {
    forall v {:trigger messages[v]} :: v in messages && messages[v].Comment? ==> Wired(messages, messages[v])
  }

  /** The creator lists hold exactly the messages of each person, and replies have parents. */
  ghost predicate ListsOk(s: State) {
    && (forall p {:trigger ListOf(s.postsOf, p)} :: NoRepeats(ListOf(s.postsOf, p)))
    && (forall p {:trigger ListOf(s.commentsOf, p)} :: NoRepeats(ListOf(s.commentsOf, p)))
    && (forall p, v :: v in ListOf(s.postsOf, p)
                  <==> v in s.messages && s.messages[v].Post? && s.messages[v].creator == p)
    && (forall p, v :: v in ListOf(s.commentsOf, p)
                  <==> v in s.messages && s.messages[v].Comment? && s.messages[v].creator == p)
    && Rooted(s.messages)
  }

  ghost predicate MembersOk(s: State) {
    && (forall p: Vertex, f: Vertex :: (p, f) in s.members <==> (f, p) in s.memberOf)
    && (forall p: Vertex, f: Vertex :: (p, f) in s.members ==>
          s.members[(p, f)] == s.memberOf[(f, p)] && s.members[(p, f)].posts == |PostsIn(s.messages, p, f)|)
  }

  ghost predicate FriendsOk(s: State) {
    && (forall p: Vertex, q: Vertex :: (p, q) in s.knows <==> (q, p) in s.knows)
    && (forall p: Vertex, q: Vertex :: (p, q) in s.knows ==> s.knows[(p, q)] == s.knows[(q, p)])
    && (forall p: Vertex, q: Vertex :: p != q && (p, q) in s.knows ==>
          s.knows[(p, q)].weight == Weight(s.messages, p, q))
  }

  ghost predicate Inv(s: State) {
    ListsOk(s) && MembersOk(s) && FriendsOk(s)
  }

  // ---------------------------------------------------------------------------
  // The loops and their sums.

  lemma {:induction false} CountIsSet(messages: map<Vertex, Message>, list: seq<Vertex>, f: Vertex,
                                      counted: set<Vertex>)
    requires NoRepeats(list)
    requires forall v :: v in counted <==> v in list && v in messages && messages[v].Post? && messages[v].forum == f
    ensures CountPosts(messages, list, f) == |counted|
  {
    if list != [] {
      var rest, v := list[..|list| - 1], list[|list| - 1];
      assert list == rest + [v];
      CountIsSet(messages, rest, f, counted - {v});
      if v in messages && messages[v].Post? && messages[v].forum == f {
        assert v in counted;
        assert counted == counted - {v} + {v};
      } else {
        assert v !in counted;
        assert counted == counted - {v};
      }
    } else {
      assert counted == {};
    }
  }

  /** `s` are the comments in the list that reply to a message of `q`, to posts or to comments. */
  ghost predicate RepliesIn(messages: map<Vertex, Message>, list: seq<Vertex>, p: Vertex, q: Vertex, posts: bool,
                            s: set<Vertex>) {
    forall v :: v in s
           <==> v in list && RepliesTo(messages, v, p, q) && (posts <==> messages[Parent(messages[v])].Post?)
  }

  lemma RepliesInRest(messages: map<Vertex, Message>, list: seq<Vertex>, p: Vertex, q: Vertex, posts: bool,
                      s: set<Vertex>)
    requires list != [] && NoRepeats(list) && RepliesIn(messages, list, p, q, posts, s)
    ensures var v := list[|list| - 1];
      && RepliesIn(messages, list[..|list| - 1], p, q, posts, s - {v})
      && |s| == |s - {v}| + if v in s then 1 else 0
  {
    hide RepliesTo, Parent;
    var rest, v := list[..|list| - 1], list[|list| - 1];
    assert list == rest + [v];
    if v in s {
      assert s == s - {v} + {v};
    } else {
      assert s == s - {v};
    }
  }

  lemma {:induction false} SumIsSets(messages: map<Vertex, Message>, list: seq<Vertex>, p: Vertex, q: Vertex,
                                     toPosts: set<Vertex>, toComments: set<Vertex>)
    requires NoRepeats(list) && Rooted(messages)
    requires forall v :: v in list ==> v in messages && messages[v].Comment? && messages[v].creator == p
    requires RepliesIn(messages, list, p, q, true, toPosts) && RepliesIn(messages, list, p, q, false, toComments)
    ensures SumReplies(messages, list, q) == |toPosts| as real + 0.5 * (|toComments| as real)
  {
    hide Rooted, RepliesIn, RepliesTo, SumReplies, NoRepeats;
    if list != [] {
      var rest, v := list[..|list| - 1], list[|list| - 1];
      RepliesInRest(messages, list, p, q, true, toPosts);
      RepliesInRest(messages, list, p, q, false, toComments);
      NoRepeatsRest(list);
      SumIsSets(messages, rest, p, q, toPosts - {v}, toComments - {v});
      LastReply(messages, list, p, q, toPosts, toComments);
    } else {
      NoReplies(messages, p, q, toPosts, toComments);
    }
  }

  lemma NoRepeatsRest(list: seq<Vertex>)
    requires list != [] && NoRepeats(list)
    ensures NoRepeats(list[..|list| - 1]) && forall u :: u in list[..|list| - 1] ==> u in list
  {
  }

  lemma NoReplies(messages: map<Vertex, Message>, p: Vertex, q: Vertex, toPosts: set<Vertex>, toComments: set<Vertex>)
    requires RepliesIn(messages, [], p, q, true, toPosts) && RepliesIn(messages, [], p, q, false, toComments)
    ensures toPosts == {} && toComments == {} && SumReplies(messages, [], q) == 0.0
  {
  }

  lemma LastReply(messages: map<Vertex, Message>, list: seq<Vertex>, p: Vertex, q: Vertex, toPosts: set<Vertex>,
                  toComments: set<Vertex>)
    requires list != [] && Rooted(messages)
    requires forall v :: v in list ==> v in messages && messages[v].Comment? && messages[v].creator == p
    requires RepliesIn(messages, list, p, q, true, toPosts) && RepliesIn(messages, list, p, q, false, toComments)
    ensures var v := list[|list| - 1];
      SumReplies(messages, list, q) == SumReplies(messages, list[..|list| - 1], q)
                                     + (if v in toPosts then 1.0 else 0.0) + (if v in toComments then 0.5 else 0.0)
  {
    var v := list[|list| - 1];
    assert v in list;
  }

  lemma CountIsDefined(s: State, p: Vertex, f: Vertex)
    requires ListsOk(s)
    ensures CountPosts(s.messages, ListOf(s.postsOf, p), f) == |PostsIn(s.messages, p, f)|
  {
    CountIsSet(s.messages, ListOf(s.postsOf, p), f, PostsIn(s.messages, p, f));
  }

  lemma RepliesAreListed(s: State, p: Vertex, q: Vertex, posts: bool)
    requires ListsOk(s)
    ensures RepliesIn(s.messages, ListOf(s.commentsOf, p), p, q, posts, Replies(s.messages, p, q, posts))
  {
  }

  lemma SumIsDefined(s: State, p: Vertex, q: Vertex)
    requires ListsOk(s)
    ensures SumReplies(s.messages, ListOf(s.commentsOf, p), q) == OneWay(s.messages, p, q)
  {
    var list := ListOf(s.commentsOf, p);
    assert NoRepeats(list);
    assert forall v :: v in list ==> v in s.messages && s.messages[v].Comment? && s.messages[v].creator == p;
    RepliesAreListed(s, p, q, true);
    RepliesAreListed(s, p, q, false);
    SumIsSets(s.messages, list, p, q, Replies(s.messages, p, q, true), Replies(s.messages, p, q, false));
  }

  // ---------------------------------------------------------------------------
  // What every update keeps.

  lemma AddToList(lists: map<Vertex, seq<Vertex>>, p: Vertex, k: nat, v: Vertex, q: Vertex)
    requires NoRepeats(ListOf(lists, q)) && v !in ListOf(lists, p)
    ensures NoRepeats(ListOf(AddTo(lists, p, k, v), q))
    ensures forall u :: u in ListOf(AddTo(lists, p, k, v), q) <==> u in ListOf(lists, q) || (q == p && u == v)
  {
    if q == p {
      var l := ListOf(lists, p);
      var n := if k <= |l| then k else |l|;
      InsertAt(l, n, v);
    }
  }

  lemma InsertAt(l: seq<Vertex>, n: nat, v: Vertex)
    requires NoRepeats(l) && v !in l && n <= |l|
    ensures NoRepeats(l[..n] + [v] + l[n..])
    ensures forall u :: u in l[..n] + [v] + l[n..] <==> u in l || u == v
  {
    var r := l[..n] + [v] + l[n..];
    forall i | 0 <= i < |r|
      ensures r[i] == if i < n then l[i] else if i == n then v else l[i - 1]
    {
    }
    forall u | u in l
      ensures u in r
    {
      var i :| 0 <= i < |l| && l[i] == u;
      assert r[if i < n then i else i + 1] == u;
    }
    assert r[n] == v;
  }

  lemma PostsInAdd(messages: map<Vertex, Message>, v: Vertex, m: Message, p: Vertex, f: Vertex)
    requires v !in messages
    ensures |PostsIn(messages[v := m], p, f)| == |PostsIn(messages, p, f)| + if m == Post(p, f) then 1 else 0
  {
    var before, now := PostsIn(messages, p, f), PostsIn(messages[v := m], p, f);
    if m == Post(p, f) {
      assert now == before + {v};
    } else {
      assert now == before;
    }
  }

  lemma RepliesStay(messages: map<Vertex, Message>, v: Vertex, m: Message, u: Vertex, p: Vertex, q: Vertex)
    requires v !in messages && Rooted(messages) && u in messages
    ensures RepliesTo(messages[v := m], u, p, q) <==> RepliesTo(messages, u, p, q)
    ensures RepliesTo(messages, u, p, q) ==> Parent(messages[u]) != v
  {
    assert messages[v := m][u] == messages[u];
  }

  /** The new message is a reply of `p` to one of `q`, of the given kind. */
  ghost predicate Counts(messages: map<Vertex, Message>, m: Message, p: Vertex, q: Vertex, posts: bool)
    requires m.Comment? ==> Parent(m) in messages
  {
    m.Comment? && m.creator == p && messages[Parent(m)].creator == q && (posts <==> messages[Parent(m)].Post?)
  }

  lemma RepliesAdd(messages: map<Vertex, Message>, v: Vertex, m: Message, p: Vertex, q: Vertex, posts: bool)
    requires v !in messages && Rooted(messages) && (m.Comment? ==> Wired(messages, m))
    ensures |Replies(messages[v := m], p, q, posts)|
         == |Replies(messages, p, q, posts)| + if Counts(messages, m, p, q, posts) then 1 else 0
  {
    hide Rooted;
    var before, now := Replies(messages, p, q, posts), Replies(messages[v := m], p, q, posts);
    forall u | u in messages
      ensures u in now <==> u in before
    {
      RepliesStay(messages, v, m, u, p, q);
      assert messages[v := m][u] == messages[u];
    }
    hide RepliesTo;
    assert v in now <==> Counts(messages, m, p, q, posts) by { NewReply(messages, v, m, p, q, posts); }
    if v in now {
      assert now == before + {v};
    } else {
      assert now == before;
    }
  }

  lemma NewReply(messages: map<Vertex, Message>, v: Vertex, m: Message, p: Vertex, q: Vertex, posts: bool)
    requires v !in messages && (m.Comment? ==> Wired(messages, m))
    ensures v in Replies(messages[v := m], p, q, posts) <==> Counts(messages, m, p, q, posts)
  {
  }

  lemma OneWayAdd(messages: map<Vertex, Message>, v: Vertex, m: Message, p: Vertex, q: Vertex)
    requires v !in messages && Rooted(messages) && (m.Comment? ==> Wired(messages, m))
    ensures OneWay(messages[v := m], p, q) == OneWay(messages, p, q)
      + if m.Comment? && m.creator == p && messages[Parent(m)].creator == q then Share(m) else 0.0
  {
    hide Replies, Rooted;
    RepliesAdd(messages, v, m, p, q, true);
    RepliesAdd(messages, v, m, p, q, false);
  }

  lemma JoinKeeps(s: State, p: Vertex, f: Vertex, joinDate: int)
    requires Inv(s)
    ensures Inv(Join(s, p, f, joinDate))
  {
    CountIsDefined(s, p, f);
  }

  lemma RootedAdd(messages: map<Vertex, Message>, v: Vertex, m: Message)
    requires v !in messages && Rooted(messages) && (m.Comment? ==> Wired(messages, m))
    ensures Rooted(messages[v := m])
  {
  }

  lemma AddMessageLists(s: State, s': State, v: Vertex, m: Message, k: nat)
    requires ListsOk(s) && v !in s.messages && s'.messages == s.messages[v := m]
    requires m.Comment? ==> Wired(s.messages, m)
    requires s'.postsOf == if m.Post? then AddTo(s.postsOf, m.creator, k, v) else s.postsOf
    requires s'.commentsOf == if m.Comment? then AddTo(s.commentsOf, m.creator, k, v) else s.commentsOf
    ensures ListsOk(s')
  {
    hide AddTo, Parent, ListOf, NoRepeats, Rooted;
    RootedAdd(s.messages, v, m);
    forall q {:trigger ListOf(s'.postsOf, q)}
      ensures NoRepeats(ListOf(s'.postsOf, q))
      ensures forall u :: u in ListOf(s'.postsOf, q)
                          <==> u in ListOf(s.postsOf, q) || (m.Post? && q == m.creator && u == v)
    {
      if m.Post? { AddToList(s.postsOf, m.creator, k, v, q); }
    }
    forall q {:trigger ListOf(s'.commentsOf, q)}
      ensures NoRepeats(ListOf(s'.commentsOf, q))
      ensures forall u :: u in ListOf(s'.commentsOf, q)
                          <==> u in ListOf(s.commentsOf, q) || (m.Comment? && q == m.creator && u == v)
    {
      if m.Comment? { AddToList(s.commentsOf, m.creator, k, v, q); }
    }
  }

  lemma AddPostMembers(s: State, v: Vertex, p: Vertex, f: Vertex, k: nat)
    requires MembersOk(s) && v !in s.messages
    ensures MembersOk(AddPost(s, v, p, f, k))
  {
    hide AddTo, PostsIn;
    var s' := AddPost(s, v, p, f, k);
    forall a: Vertex, b: Vertex
      ensures |PostsIn(s'.messages, a, b)| == |PostsIn(s.messages, a, b)| + if a == p && b == f then 1 else 0
    {
      PostsInAdd(s.messages, v, Post(p, f), a, b);
    }
  }

  lemma AddPostKeeps(s: State, v: Vertex, p: Vertex, f: Vertex, k: nat)
    requires Inv(s) && v !in s.messages
    ensures Inv(AddPost(s, v, p, f, k))
  {
    hide AddTo, MembersOk, Weight;
    var m := Post(p, f);
    AddMessageLists(s, AddPost(s, v, p, f, k), v, m, k);
    AddPostMembers(s, v, p, f, k);
    SameWeights(s.messages, v, m);
  }

  lemma SameWeights(messages: map<Vertex, Message>, v: Vertex, m: Message)
    requires v !in messages && Rooted(messages) && m.Post?
    ensures forall a, b :: Weight(messages[v := m], a, b) == Weight(messages, a, b)
  {
    forall a, b
      ensures Weight(messages[v := m], a, b) == Weight(messages, a, b)
    {
      OneWayAdd(messages, v, m, a, b);
      OneWayAdd(messages, v, m, b, a);
    }
  }

  lemma AddCommentMembers(s: State, v: Vertex, c: Message, s': State)
    requires MembersOk(s) && v !in s.messages && c.Comment?
    requires s'.messages == s.messages[v := c] && s'.members == s.members && s'.memberOf == s.memberOf
    ensures MembersOk(s')
  {
    hide PostsIn;
    forall a: Vertex, b: Vertex
      ensures |PostsIn(s'.messages, a, b)| == |PostsIn(s.messages, a, b)|
    {
      PostsInAdd(s.messages, v, c, a, b);
    }
  }

  lemma AddCommentFriends(s: State, v: Vertex, c: Message, s': State)
    requires FriendsOk(s) && v !in s.messages && c.Comment? && Wired(s.messages, c) && Rooted(s.messages)
    requires s'.messages == s.messages[v := c]
    requires var p, q := c.creator, s.messages[Parent(c)].creator;
      if (p, q) in s.knows then
        var e := s.knows[(p, q)].(weight := s.knows[(p, q)].weight + Share(c));
        s'.knows == s.knows[(p, q) := e][(q, p) := e]
      else s'.knows == s.knows
    ensures FriendsOk(s')
  {
    hide Weight, Share, Parent;
    var p, q := c.creator, s.messages[Parent(c)].creator;
    forall a: Vertex, b: Vertex | a != b
      ensures Weight(s'.messages, a, b)
           == Weight(s.messages, a, b) + if (a, b) == (p, q) || (a, b) == (q, p) then Share(c) else 0.0
    {
      WeightAdd(s.messages, v, c, a, b);
    }
  }

  lemma AddCommentKeeps(s: State, v: Vertex, p: Vertex, replyOfPost: int, replyOfComment: int, k: nat)
    requires Inv(s) && v !in s.messages && Named(s.messages, replyOfPost, replyOfComment)
    ensures Inv(AddComment(s, v, p, replyOfPost, replyOfComment, k))
  {
    hide AddTo, ListsOk, MembersOk, FriendsOk;
    var s', c := AddComment(s, v, p, replyOfPost, replyOfComment, k), Comment(p, replyOfPost, replyOfComment);
    if Parent(c) in s.messages {
      AddMessageLists(s, s', v, c, k);
      ListsRooted(s);
      AddCommentMembers(s, v, c, s');
      AddCommentFriends(s, v, c, s');
    }
  }

  lemma ListsRooted(s: State)
    requires ListsOk(s)
    ensures Rooted(s.messages)
  {
  }

  lemma WeightAdd(messages: map<Vertex, Message>, v: Vertex, c: Message, a: Vertex, b: Vertex)
    requires v !in messages && Rooted(messages) && c.Comment? && Wired(messages, c) && a != b
    ensures var p, q := c.creator, messages[Parent(c)].creator;
      Weight(messages[v := c], a, b)
      == Weight(messages, a, b) + if (a, b) == (p, q) || (a, b) == (q, p) then Share(c) else 0.0
  {
    OneWayAdd(messages, v, c, a, b);
    OneWayAdd(messages, v, c, b, a);
  }

  lemma BefriendFriends(s: State, left: Vertex, right: Vertex, since: int)
    requires ListsOk(s) && FriendsOk(s)
    ensures FriendsOk(Befriend(s, left, right, since))
  {
    hide OneWay, SumReplies, ListsOk, ListOf;
    SumIsDefined(s, left, right);
    SumIsDefined(s, right, left);
  }

  lemma BefriendKeeps(s: State, left: Vertex, right: Vertex, since: int)
    requires Inv(s)
    ensures Inv(Befriend(s, left, right, since))
  {
    hide FriendsOk, SumReplies, PostsIn, NoRepeats, Rooted;
    BefriendFriends(s, left, right, since);
  }

  lemma ApplyKeeps(s: State, step: Step)
    requires Inv(s) && Enabled(s, step)
    ensures Inv(Apply(s, step))
  {
    hide Inv, Join, AddPost, AddComment, Befriend;
    match step {
      case Update5(p, f, date) => JoinKeeps(s, p, f, date);
      case Update6(v, p, f, k) => AddPostKeeps(s, v, p, f, k);
      case Update7(v, p, post, comment, k) => AddCommentKeeps(s, v, p, post, comment, k);
      case Update8(left, right, date) => BefriendKeeps(s, left, right, date);
    }
  }

  /** Over all serial runs of the four updates, stored counts and weights are what their
      definitions say: posts of the member in the forum, in both directions of the membership,
      and 1.0 per reply to a post plus 0.5 per reply to a comment between two different
      friends, in both directions of the friendship. */
  lemma {:induction false} RunsKeepDefinitions(s: State, steps: seq<Step>)
    requires Inv(s) && Possible(s, steps)
    ensures Inv(Run(s, steps))
  {
    hide Inv, Apply, Enabled;
    if steps != [] {
      var front := steps[..|steps| - 1];
      FrontPossible(s, steps);
      RunsKeepDefinitions(s, front);
      ApplyKeeps(Run(s, front), steps[|steps| - 1]);
    }
  }

  // ---------------------------------------------------------------------------
  // Dates.

  /** The date of the latest time that the person joined the forum, if there is one. */
  function Joined(steps: seq<Step>, p: Vertex, f: Vertex): seq<int> {
    if steps == [] then []
    else
      var last := steps[|steps| - 1];
      if last.Update5? && last.p == p && last.f == f then [last.date] else Joined(steps[..|steps| - 1], p, f)
  }

  /** The date of the latest time that the two became friends, if there is one. */
  function Befriended(steps: seq<Step>, p: Vertex, q: Vertex): seq<int> {
    if steps == [] then []
    else
      var last := steps[|steps| - 1];
      if last.Update8? && ((last.left == p && last.right == q) || (last.left == q && last.right == p)) then [last.date]
      else Befriended(steps[..|steps| - 1], p, q)
  }

  lemma ApplyMember(s: State, step: Step, p: Vertex, f: Vertex)
    ensures var r, now := Apply(s, step), step.Update5? && step.p == p && step.f == f;
      && ((p, f) in r.members <==> (p, f) in s.members || now)
      && ((p, f) in r.members ==> r.members[(p, f)].joinDate == if now then step.date else s.members[(p, f)].joinDate)
  {
    hide AddTo, CountPosts, SumReplies, Share, Parent;
  }

  lemma ApplyFriend(s: State, step: Step, p: Vertex, q: Vertex)
    requires FriendsOk(s)
    ensures var r, now := Apply(s, step),
                          step.Update8? && ((step.left == p && step.right == q) || (step.left == q && step.right == p));
      && ((p, q) in r.knows <==> (p, q) in s.knows || now)
      && ((p, q) in r.knows ==> r.knows[(p, q)].since == if now then step.date else s.knows[(p, q)].since)
  {
    hide AddTo, CountPosts, SumReplies, Share, Parent, Weight;
  }

  /** Over all serial runs, whoever has joined a forum is a member, in both directions, since the
      date of the latest time, and whoever has become a friend is one since then. */
  lemma {:induction false} DatesAreLatest(s: State, steps: seq<Step>, p: Vertex, f: Vertex, q: Vertex)
    requires Inv(s) && Possible(s, steps)
    ensures var r, joined := Run(s, steps), Joined(steps, p, f);
      && ((p, f) in r.members <==> (p, f) in s.members || joined != [])
      && ((p, f) in r.members ==>
            && r.members[(p, f)].joinDate == (if joined != [] then joined[0] else s.members[(p, f)].joinDate)
            && (f, p) in r.memberOf && r.memberOf[(f, p)] == r.members[(p, f)])
    ensures var r, friends := Run(s, steps), Befriended(steps, p, q);
      && ((p, q) in r.knows <==> (p, q) in s.knows || friends != [])
      && ((p, q) in r.knows ==>
            && r.knows[(p, q)].since == (if friends != [] then friends[0] else s.knows[(p, q)].since)
            && (q, p) in r.knows && r.knows[(q, p)] == r.knows[(p, q)])
  {
    hide Apply, Enabled, ListsOk, PostsIn, Weight;
    RunsKeepDefinitions(s, steps);
    if steps != [] {
      var front, last := steps[..|steps| - 1], steps[|steps| - 1];
      FrontPossible(s, steps);
      DatesAreLatest(s, front, p, f, q);
      RunsKeepDefinitions(s, front);
      ApplyMember(Run(s, front), last, p, f);
      ApplyFriend(Run(s, front), last, p, q);
    }
  }

  lemma FrontPossible(s: State, steps: seq<Step>)
    requires Possible(s, steps) && steps != []
    ensures Possible(s, steps[..|steps| - 1])
  {
    hide Enabled, Run;
    var front := steps[..|steps| - 1];
    forall i | 0 <= i < |front|
      ensures Enabled(Run(s, front[..i]), front[i])
    {
      assert front[..i] == steps[..i];
    }
  }

  // ---------------------------------------------------------------------------
  // A friendship with oneself.

  /** The stored weight of a friendship is what its definition says. */
  ghost predicate WeightOk(s: State, p: Vertex, q: Vertex) {
    (p, q) in s.knows ==> s.knows[(p, q)].weight == Weight(s.messages, p, q)
  }

  /** The step makes a person's comment that replies to a message of their own. */
  predicate RepliesToSelf(s: State, step: Step, p: Vertex) {
    && step.Update7? && step.p == p
    && var parent := Parent(Comment(p, step.replyOfPost, step.replyOfComment));
       parent in s.messages && s.messages[parent].creator == p
  }

  lemma SelfReplyAdds(s: State, v: Vertex, c: Message, p: Vertex)
    requires v !in s.messages && Rooted(s.messages) && c.Comment? && Wired(s.messages, c)
    ensures Weight(s.messages[v := c], p, p) == Weight(s.messages, p, p)
      + if c.creator == p && s.messages[Parent(c)].creator == p then 2.0 * Share(c) else 0.0
  {
    OneWayAdd(s.messages, v, c, p, p);
  }

  /** The weight of a person's friendship with themselves stays right in every step but one:
      a reply to a post or a comment of their own, which update 7 adds once and which the two
      loops of update 8 count twice. */
  lemma SelfFriendshipDrifts(s: State, step: Step, p: Vertex)
    requires Inv(s) && Enabled(s, step) && (p, p) in s.knows && WeightOk(s, p, p)
    ensures WeightOk(Apply(s, step), p, p) <==> !RepliesToSelf(s, step, p)
  {
    hide Weight, AddTo;
    match step {
      case Update5(_, _, _) =>
      case Update6(v, q, f, k) =>
        ListsRooted(s);
        SameWeights(s.messages, v, Post(q, f));
      case Update7(v, q, post, comment, k) =>
        var c := Comment(q, post, comment);
        if Parent(c) in s.messages {
          ListsRooted(s);
          SelfReplyAdds(s, v, c, p);
        }
      case Update8(left, right, date) =>
        SelfBefriend(s, left, right, date, p);
    }
  }

  lemma SelfBefriend(s: State, left: Vertex, right: Vertex, since: int, p: Vertex)
    requires Inv(s) && WeightOk(s, p, p)
    ensures WeightOk(Befriend(s, left, right, since), p, p)
  {
    hide SumReplies, OneWay;
    SumIsDefined(s, left, right);
    SumIsDefined(s, right, left);
  }

  const NoData := State(map[], map[], map[], map[], map[], map[])

  /** From an empty graph on, the stored weights of a pair are right over all runs if and only
      if the two are different persons. */
  lemma WeightsRightIff(p: Vertex, q: Vertex)
    ensures p != q <==> forall steps {:trigger Run(NoData, steps)} :: Possible(NoData, steps) ==>
      WeightOk(Run(NoData, steps), p, q)
  {
    hide Run, Weight, Possible;
    assert Inv(NoData) by { NoDataInv(); }
    if p != q {
      forall steps {:trigger Run(NoData, steps)} | Possible(NoData, steps)
        ensures WeightOk(Run(NoData, steps), p, q)
      {
        RunsKeepDefinitions(NoData, steps);
      }
    } else {
      var steps := SelfReplyRun(p);
      assert Possible(NoData, steps) && !WeightOk(Run(NoData, steps), p, p);
    }
  }

  lemma NoDataInv()
    ensures Inv(NoData)
  {
    assert forall p, f :: PostsIn(NoData.messages, p, f) == {};
  }

  /** Write a post, befriend oneself, reply to the post. */
  lemma SelfReplyRun(p: Vertex) returns (steps: seq<Step>)
    ensures Possible(NoData, steps) && !WeightOk(Run(NoData, steps), p, p)
  {
    var first, second, third := Update6(0, p, 0, 0), Update8(p, p, 0), Update7(1, p, 0, -1, 0);
    var s1 := Apply(NoData, first);
    var s2 := Apply(s1, second);
    NoDataInv();
    ApplyKeeps(NoData, first);
    ApplyKeeps(s1, second);
    steps := [first, second, third];
    RunThree(first, second, third);
    SumIsDefined(s1, p, p);
    SelfFriendshipDrifts(s2, third, p);
  }

  lemma RunThree(first: Step, second: Step, third: Step)
    ensures var steps := [first, second, third];
      && Run(NoData, steps) == Apply(Apply(Apply(NoData, first), second), third)
      && Run(NoData, steps[..0]) == NoData && Run(NoData, steps[..1]) == Apply(NoData, first)
      && Run(NoData, steps[..2]) == Apply(Apply(NoData, first), second)
  {
    hide Apply;
    var steps := [first, second, third];
    assert steps[..2] == [first, second] && steps[..1] == [first] && [first, second][..1] == [first];
    assert steps[..0] == [] && [first][..0] == [];
    assert Run(NoData, [first]) == Apply(NoData, first);
    assert Run(NoData, [first, second]) == Apply(Apply(NoData, first), second);
  }

  // ---------------------------------------------------------------------------
  // The loops as they run.

  /** update5's count. */
  method CountLoop(s: State, p: Vertex, f: Vertex) returns (posts: nat)
    requires ListsOk(s)
    ensures posts == CountPosts(s.messages, ListOf(s.postsOf, p), f)
    ensures posts == |PostsIn(s.messages, p, f)|
  {
    var list, i := ListOf(s.postsOf, p), 0;
    posts := 0;
    while i < |list|
      invariant i <= |list| && posts == CountPosts(s.messages, list[..i], f)
    {
      assert list[..i + 1][..i] == list[..i] && list[i] in list;
      if s.messages[list[i]].forum == f {
        posts := posts + 1;
      }
      i := i + 1;
    }
    assert list[..i] == list;
    CountIsDefined(s, p, f);
  }

  /** One of update8's two sums. */
  method SumLoop(s: State, p: Vertex, q: Vertex) returns (weight: real)
    requires ListsOk(s)
    ensures weight == SumReplies(s.messages, ListOf(s.commentsOf, p), q)
    ensures weight == OneWay(s.messages, p, q)
  {
    var list, i := ListOf(s.commentsOf, p), 0;
    weight := 0.0;
    while i < |list|
      invariant i <= |list| && weight == SumReplies(s.messages, list[..i], q)
    {
      assert list[..i + 1][..i] == list[..i] && list[i] in list;
      var comment := s.messages[list[i]];
      var rvid := if comment.replyOfPost == -1 then comment.replyOfComment else comment.replyOfPost;
      if s.messages[rvid].creator == q {
        weight := weight + if rvid == comment.replyOfPost then 1.0 else 0.5;
      }
      i := i + 1;
    }
    assert list[..i] == list;
    SumIsDefined(s, p, q);
  }
}
