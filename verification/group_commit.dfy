/** Group commit: clients queue up on one of two queues, the server takes a whole queue at a
    time, gives it one epoch, and publishes epochs in order once all their clients are done. */
module GroupCommit {
  type ClientId = nat

  /** Program counters of register_commit and finish_commit: has read global_client_mutex;
      holds mutex[q]; has queued itself and still holds it; waits for seq_front[q] > seqNo;
      register_commit is back; its batch's counter is decremented. */
  datatype ClientPc = Out | Chosen | Locked | Pushed | Asleep | Returned | Counted

  /** `epoch` is the stack variable that the server fills in; it is negative until then.  `wait`
      is the argument of finish_commit. */
  datatype Client = Client(pc: ClientPc, q: nat, seqNo: nat, epoch: int, wait: bool)

  /** Program counters of server_loop: may pop finished epochs; has read
      global_client_mutex; holds mutex[q] and looks at the queue; in wait_for with mutex[q]
      released; both mutexes held and queues flipped; hands the epoch to `left` more of `num`
      clients; own count added, log written; mutex[q] released; clients notified. */
  datatype ServerPc =
    Checking | Choosing | Waiting | Parked | Flipped | Assigning | Holding | Fronting | Dropping | Stopped

  datatype Server = Server(pc: ServerPc, q: nat, num: nat, left: nat)

  datatype Holder = Free | ByServer | ByClient(c: ClientId)

  /** One of the two queues with its mutex and sequence numbers.  `log[n]` is history: the
      epoch that its n-th client was given. */
  datatype Queue = Queue(mutex: Holder, items: seq<ClientId>, front: nat, rear: nat, log: seq<int>)

  /** An epoch whose clients are still writing, with its counter. */
  datatype Open = Open(epoch: int, count: int)

  datatype State = State(
    clients: map<ClientId, Client>, server: Server, which: nat, qs: seq<Queue>,
    unfinished: seq<Open>, writing: int, global: int, closed: bool)

  datatype Step =
    | Load(c: ClientId) | Acquire(c: ClientId) | Retry(c: ClientId) | Push(c: ClientId) | Release(c: ClientId)
    | Return(c: ClientId) | FetchSub(c: ClientId, i: nat, wait: bool) | Leave(c: ClientId)
    | PopFinished | Choose | ServerAcquire | Park | TakeQueue | OpenBatch | Assign | EndAssign
    | ReleaseMutex | MoveFront | DropOwn | Close

  ghost predicate Wf(s: State) {
    && |s.qs| == 2 && s.which < 2 && s.server.q < 2
    && (forall c {:trigger s.clients[c]} :: c in s.clients ==> s.clients[c].q < 2)
  }

  ghost function Move(s: State, c: ClientId, to: Client): State {
    s.(clients := s.clients[c := to])
  }

  ghost function SetQueue(s: State, q: nat, Q: Queue): State
    requires q < |s.qs|
  {
    s.(qs := s.qs[q := Q])
  }

  /** Add `d` to the counter of the epoch at position `i`. */
  ghost function Count(s: State, i: nat, d: int): State
    requires i < |s.unfinished|
  {
    s.(unfinished := s.unfinished[i := Open(s.unfinished[i].epoch, s.unfinished[i].count + d)])
  }

  /** The server holds client_mutex[q]. */
  ghost predicate ClientMutexHeld(s: Server, q: nat) {
    s.q == q && (s.pc.Flipped? || s.pc.Assigning? || s.pc.Holding? || s.pc.Fronting?)
  }

  ghost predicate ClientStep(s: State, s': State, step: Step, c: ClientId)
    requires Wf(s)
  {
    && c in s.clients
    && var x := s.clients[c];
       var Q := s.qs[x.q];
       match step
       case Load(_) => x.pc.Out? && s' == Move(s, c, Client(Chosen, s.which, 0, -1, false))
       case Acquire(_) =>
         x.pc.Chosen? && Q.mutex.Free? && s' == SetQueue(Move(s, c, x.(pc := Locked)), x.q, Q.(mutex := ByClient(c)))
       case Retry(_) =>
         x.pc.Locked? && x.q != s.which && s' == SetQueue(Move(s, c, x.(pc := Out)), x.q, Q.(mutex := Free))
       case Push(_) =>
         && x.pc.Locked? && x.q == s.which
         && s' == SetQueue(Move(s, c, x.(pc := Pushed, seqNo := Q.rear)), x.q,
                           Q.(items := Q.items + [c], rear := Q.rear + 1))
       case Release(_) =>
         x.pc.Pushed? && s' == SetQueue(Move(s, c, x.(pc := Asleep)), x.q, Q.(mutex := Free))
       case Return(_) =>
         x.pc.Asleep? && !ClientMutexHeld(s.server, x.q) && x.seqNo < Q.front && s' == Move(s, c, x.(pc := Returned))
       case FetchSub(_, i, wait) =>
         && x.pc.Returned? && i < |s.unfinished| && s.unfinished[i].epoch == x.epoch
         && s' == Count(Move(s, c, x.(pc := Counted, wait := wait)), i, -1)
       case Leave(_) =>
         x.pc.Counted? && (x.wait ==> x.epoch <= s.global) && s' == Move(s, c, x.(pc := Out))
       case _ => false
  }

  ghost predicate ServerStep(s: State, s': State, step: Step)
    requires Wf(s)
  {
    var p := s.server;
    var Q := s.qs[p.q];
    match step
    case PopFinished =>
      && (p.pc.Checking? || p.pc.Waiting?) && s.unfinished != [] && s.unfinished[0].count == 0
      && s' == s.(global := s.unfinished[0].epoch, unfinished := s.unfinished[1..])
    case Choose =>
      p.pc.Checking? && s' == s.(server := Server(Choosing, s.which, 0, 0))
    case ServerAcquire =>
      && (p.pc.Choosing? || p.pc.Parked?) && Q.mutex.Free?
      && s' == SetQueue(s.(server := p.(pc := Waiting)), p.q, Q.(mutex := ByServer))
    case Park =>
      && p.pc.Waiting? && Q.items == [] && !s.closed
      && s' == SetQueue(s.(server := p.(pc := Parked)), p.q, Q.(mutex := Free))
    case TakeQueue =>
      && p.pc.Waiting? && (Q.items != [] || s.closed)
      && s' == s.(server := p.(pc := Flipped), which := 1 - s.which)
    case OpenBatch =>
      && p.pc.Flipped?
      && if Q.items == [] then s' == SetQueue(s.(server := p.(pc := Stopped)), p.q, Q.(mutex := Free))
         else s' == s.(server := Server(Assigning, p.q, |Q.items|, |Q.items|), writing := s.writing + 1,
                       unfinished := s.unfinished + [Open(s.writing + 1, 0)])
    case Assign =>
      && p.pc.Assigning? && 0 < p.left && s.unfinished != [] && Q.items != [] && Q.items[0] in s.clients
      && var c := Q.items[0];
         s' == SetQueue(Count(Move(s, c, s.clients[c].(epoch := s.writing)), |s.unfinished| - 1, 1)
                          .(server := p.(left := p.left - 1)),
                        p.q, Q.(items := Q.items[1..], log := Q.log + [s.writing]))
    case EndAssign =>
      && p.pc.Assigning? && p.left == 0 && s.unfinished != []
      && s' == Count(s.(server := p.(pc := Holding)), |s.unfinished| - 1, 1)
    case ReleaseMutex =>
      p.pc.Holding? && s' == SetQueue(s.(server := p.(pc := Fronting)), p.q, Q.(mutex := Free))
    case MoveFront =>
      p.pc.Fronting? && s' == SetQueue(s.(server := p.(pc := Dropping)), p.q, Q.(front := Q.front + p.num))
    case DropOwn =>
      && p.pc.Dropping? && s.unfinished != []
      && s' == Count(s.(server := p.(pc := Checking)), |s.unfinished| - 1, -1)
    case Close => s' == s.(closed := true)
    case _ => false
  }

  predicate OfClient(step: Step) {
    || step.Load? || step.Acquire? || step.Retry? || step.Push? || step.Release? || step.Return?
    || step.FetchSub? || step.Leave?
  }

  ghost predicate NextStep(s: State, s': State, step: Step) {
    Wf(s) && if OfClient(step) then ClientStep(s, s', step, step.c) else ServerStep(s, s', step)
  }

  ghost predicate Next(s: State, s': State) {
    exists step :: NextStep(s, s', step)
  }

  /** The commit manager is constructed with its writing epoch at the global epoch. */
  ghost predicate Init(s: State) {
    && (forall c {:trigger s.clients[c]} :: c in s.clients ==> s.clients[c] == Client(Out, 0, 0, -1, false))
    && s.server == Server(Checking, 0, 0, 0) && s.which == 0
    && s.qs == [Queue(Free, [], 0, 0, []), Queue(Free, [], 0, 0, [])]
    && s.unfinished == [] && 0 <= s.writing == s.global && !s.closed
  }

  ghost predicate IsRun(run: seq<State>) {
    && run != []
    && Init(run[0])
    && (forall i :: 0 <= i < |run| - 1 ==> Next(run[i], run[i + 1]))
  }

  // ---------------------------------------------------------------------------
  // The invariant.

  /** In a queue, epoch not yet assigned. */
  ghost predicate Unserved(x: Client) {
    x.pc.Pushed? || (x.pc.Asleep? && x.epoch < 0)
  }

  /** Has an epoch and will still decrement its counter. */
  ghost predicate InDebt(x: Client) {
    (x.pc.Asleep? || x.pc.Returned?) && 0 <= x.epoch
  }

  ghost predicate ItemsOk(cl: map<ClientId, Client>, Q: Queue, q: nat) {
    && Q.rear == |Q.log| + |Q.items|
    && forall i {:trigger Q.items[i]} :: 0 <= i < |Q.items| ==>
         && Q.items[i] in cl && Unserved(cl[Q.items[i]])
         && cl[Q.items[i]].q == q && cl[Q.items[i]].seqNo == |Q.log| + i
  }

  ghost predicate ClientOk(c: ClientId, x: Client, Q: Queue) {
    && (x.pc.Locked? || x.pc.Pushed? ==> Q.mutex == ByClient(c))
    && (Unserved(x) ==>
          |Q.log| <= x.seqNo < |Q.log| + |Q.items| && Q.items[x.seqNo - |Q.log|] == c && x.epoch < 0)
    && (x.pc.Chosen? || x.pc.Locked? ==> x.epoch < 0)
    && (x.pc.Asleep? && 0 <= x.epoch ==> x.seqNo < |Q.log| && Q.log[x.seqNo] == x.epoch)
  }

  ghost predicate FrontOk(p: Server, Q: Queue, q: nat) {
    |Q.log| == Q.front + (if p.q != q then 0
                          else if p.pc.Assigning? then p.num - p.left
                          else if p.pc.Holding? || p.pc.Fronting? then p.num else 0)
  }

  ghost predicate ServerOk(p: Server, Q: Queue) {
    && (p.pc.Waiting? || p.pc.Flipped? || p.pc.Assigning? || p.pc.Holding? ==> Q.mutex == ByServer)
    && (p.pc.Assigning? ==> p.left <= p.num && p.left == |Q.items|)
  }

  ghost predicate QueuesOk(s: State)
    requires Wf(s)
  {
    && ItemsOk(s.clients, s.qs[0], 0) && ItemsOk(s.clients, s.qs[1], 1)
    && FrontOk(s.server, s.qs[0], 0) && FrontOk(s.server, s.qs[1], 1)
    && ServerOk(s.server, s.qs[s.server.q])
    && (forall c {:trigger s.clients[c]} :: c in s.clients ==> ClientOk(c, s.clients[c], s.qs[s.clients[c].q]))
  }

  ghost function Debtors(cl: map<ClientId, Client>, e: int): set<ClientId> {
    set c | c in cl && InDebt(cl[c]) && cl[c].epoch == e
  }

  ghost predicate InBatch(p: Server) {
    p.pc.Assigning? || p.pc.Holding? || p.pc.Fronting? || p.pc.Dropping?
  }

  /** The server's own count on the batch it is releasing. */
  ghost function OwnCount(p: Server): int {
    if p.pc.Holding? || p.pc.Fronting? || p.pc.Dropping? then 1 else 0
  }

  ghost predicate CountersOk(s: State) {
    && 0 <= s.global <= s.writing
    && (forall i {:trigger s.unfinished[i]} :: 0 <= i < |s.unfinished| ==>
          && s.global < s.unfinished[i].epoch <= s.writing
          && s.unfinished[i].count == |Debtors(s.clients, s.unfinished[i].epoch)|
                                    + if i == |s.unfinished| - 1 then OwnCount(s.server) else 0)
    && (forall i, j {:trigger s.unfinished[i], s.unfinished[j]} :: 0 <= i < j < |s.unfinished| ==>
          s.unfinished[i].epoch < s.unfinished[j].epoch)
    && (InBatch(s.server) ==> s.unfinished != [] && s.unfinished[|s.unfinished| - 1].epoch == s.writing)
  }

  ghost predicate Queued(u: seq<Open>, e: int) {
    exists i :: 0 <= i < |u| && u[i].epoch == e
  }

  /** Whoever still owes a decrement finds its counter in the queue. */
  ghost predicate DebtsQueued(s: State) {
    forall c {:trigger s.clients[c]} :: c in s.clients && InDebt(s.clients[c]) ==>
      Queued(s.unfinished, s.clients[c].epoch)
  }

  ghost predicate Returns(s: State) {
    forall c {:trigger s.clients[c]} :: c in s.clients && s.clients[c].pc.Returned? ==> 0 <= s.clients[c].epoch
  }

  ghost predicate Inv(s: State) {
    Wf(s) && QueuesOk(s) && CountersOk(s) && DebtsQueued(s) && Returns(s)
  }

  lemma InitInv(s: State)
    requires Init(s)
    ensures Inv(s)
  {
  }

  // ---------------------------------------------------------------------------
  // Parts of the steps.

  /** Only client `c` and queue `q` change, and `c` is in no other queue. */
  ghost predicate Local(s: State, s': State, c: ClientId, q: nat) {
    && Wf(s) && Wf(s') && q < 2 && c in s.clients
    && s'.clients.Keys == s.clients.Keys && (forall d :: d in s.clients && d != c ==> s'.clients[d] == s.clients[d])
    && s'.qs[1 - q] == s.qs[1 - q]
    && s.clients[c].q == q
  }

  lemma LocalQueues(s: State, s': State, c: ClientId, q: nat)
    requires Local(s, s', c, q) && QueuesOk(s)
    requires FrontOk(s'.server, s'.qs[0], 0) && FrontOk(s'.server, s'.qs[1], 1)
    requires ItemsOk(s'.clients, s'.qs[q], q) && ServerOk(s'.server, s'.qs[s'.server.q])
    requires ClientOk(c, s'.clients[c], s'.qs[s'.clients[c].q])
    requires forall d {:trigger s.clients[d]} :: d in s.clients && d != c && s.clients[d].q == q ==>
      ClientOk(d, s.clients[d], s'.qs[q])
    ensures QueuesOk(s')
  {
    hide ClientOk, FrontOk, ServerOk;
    assert ItemsOk(s.clients, s.qs[1 - q], 1 - q);
    assert ItemsOk(s'.clients, s'.qs[1 - q], 1 - q);
    forall d {:trigger s'.clients[d]} | d in s'.clients
      ensures ClientOk(d, s'.clients[d], s'.qs[s'.clients[d].q])
    {
      if d != c {
        assert ClientOk(d, s.clients[d], s.qs[s.clients[d].q]);
      }
    }
  }

  lemma SameDebtors(cl: map<ClientId, Client>, cl': map<ClientId, Client>, e: int)
    requires cl'.Keys == cl.Keys
    requires forall c {:trigger cl'[c]} :: c in cl && (InDebt(cl[c]) || InDebt(cl'[c])) ==>
      InDebt(cl[c]) && InDebt(cl'[c]) && cl'[c].epoch == cl[c].epoch
    ensures Debtors(cl', e) == Debtors(cl, e)
  {
  }

  /** Steps without an effect on epochs and counters. */
  lemma SameCounters(s: State, s': State)
    requires CountersOk(s) && DebtsQueued(s) && s'.clients.Keys == s.clients.Keys
    requires s'.unfinished == s.unfinished && s'.global == s.global && s'.writing == s.writing
    requires forall c {:trigger s'.clients[c]} :: c in s.clients && (InDebt(s.clients[c]) || InDebt(s'.clients[c])) ==>
      InDebt(s.clients[c]) && InDebt(s'.clients[c]) && s'.clients[c].epoch == s.clients[c].epoch
    requires OwnCount(s'.server) == OwnCount(s.server) && (InBatch(s'.server) ==> InBatch(s.server))
    ensures CountersOk(s') && DebtsQueued(s')
  {
    forall i {:trigger s'.unfinished[i]} | 0 <= i < |s'.unfinished|
      ensures s'.unfinished[i].count == |Debtors(s'.clients, s'.unfinished[i].epoch)|
                                      + if i == |s'.unfinished| - 1 then OwnCount(s'.server) else 0
    {
      SameDebtors(s.clients, s'.clients, s.unfinished[i].epoch);
    }
  }

  // ---------------------------------------------------------------------------
  // Client steps.

  /** A client that is in no queue changes by itself. */
  lemma AloneQueues(s: State, s': State, c: ClientId)
    requires Wf(s) && QueuesOk(s) && c in s.clients && c in s'.clients && Wf(s')
    requires s'.clients == s.clients[c := s'.clients[c]] && s'.qs == s.qs && s'.server == s.server
    requires !Unserved(s.clients[c]) && !s'.clients[c].pc.Locked? && !Unserved(s'.clients[c])
    requires s'.clients[c].pc.Chosen? ==> s'.clients[c].epoch < 0
    requires !s'.clients[c].pc.Asleep?
    ensures QueuesOk(s')
  {
    assert ItemsOk(s.clients, s.qs[0], 0) && ItemsOk(s.clients, s.qs[1], 1);
    forall d {:trigger s'.clients[d]} | d in s'.clients
      ensures ClientOk(d, s'.clients[d], s'.qs[s'.clients[d].q])
    {
      if d != c {
        assert ClientOk(d, s.clients[d], s.qs[s.clients[d].q]);
      }
    }
  }

  lemma LoadKeeps(s: State, s': State, c: ClientId, step: Step)
    requires Inv(s) && ClientStep(s, s', step, c) && (step.Load? || step.Leave?)
    ensures Inv(s')
  {
    AloneQueues(s, s', c);
    SameCounters(s, s');
  }

  lemma ItemsFrame(cl: map<ClientId, Client>, cl': map<ClientId, Client>, Q: Queue, Q': Queue, q: nat)
    requires ItemsOk(cl, Q, q) && Q'.items == Q.items && Q'.log == Q.log && Q'.rear == Q.rear
    requires cl'.Keys == cl.Keys
    requires forall c {:trigger cl'[c]} :: c in cl && Unserved(cl[c]) ==>
      Unserved(cl'[c]) && cl'[c].q == cl[c].q && cl'[c].seqNo == cl[c].seqNo
    ensures ItemsOk(cl', Q', q)
  {
  }

  /** A client takes or releases the mutex of its queue. */
  lemma LockQueues(s: State, s': State, c: ClientId, h: Holder)
    requires Wf(s) && QueuesOk(s) && c in s.clients && c in s'.clients && Wf(s')
    requires var q := s.clients[c].q;
      && s'.clients == s.clients[c := s.clients[c].(pc := s'.clients[c].pc)] && s'.server == s.server
      && s'.qs == s.qs[q := s.qs[q].(mutex := h)]
      && (s.qs[q].mutex.Free? || s.qs[q].mutex == ByClient(c))
      && (Unserved(s.clients[c]) <==> Unserved(s'.clients[c]))
      && ClientOk(c, s'.clients[c], s'.qs[q])
    ensures QueuesOk(s')
  {
    var q := s.clients[c].q;
    ItemsFrame(s.clients, s'.clients, s.qs[0], s'.qs[0], 0);
    ItemsFrame(s.clients, s'.clients, s.qs[1], s'.qs[1], 1);
    assert FrontOk(s.server, s.qs[q], q) && FrontOk(s.server, s.qs[1 - q], 1 - q);
    assert ServerOk(s.server, s.qs[s.server.q]);
    forall d {:trigger s'.clients[d]} | d in s'.clients
      ensures ClientOk(d, s'.clients[d], s'.qs[s'.clients[d].q])
    {
      if d != c {
        LockOther(d, s.clients[d], s.qs[s.clients[d].q], c, h);
      }
    }
  }

  lemma LockOther(d: ClientId, x: Client, Q: Queue, c: ClientId, h: Holder)
    requires ClientOk(d, x, Q) && d != c
    ensures Q.mutex.Free? || Q.mutex == ByClient(c) ==> ClientOk(d, x, Q.(mutex := h))
  {
  }

  lemma LockStepQueues(s: State, s': State, c: ClientId, step: Step)
    requires Wf(s) && QueuesOk(s) && ClientStep(s, s', step, c) && (step.Acquire? || step.Retry? || step.Release?)
    ensures Wf(s') && QueuesOk(s')
  {
    assert ClientOk(c, s.clients[c], s.qs[s.clients[c].q]);
    LockQueues(s, s', c, s'.qs[s.clients[c].q].mutex);
  }

  lemma LockKeeps(s: State, s': State, c: ClientId, step: Step)
    requires Inv(s) && ClientStep(s, s', step, c) && (step.Acquire? || step.Retry? || step.Release?)
    ensures Inv(s')
  {
    hide ItemsOk, FrontOk, ServerOk;
    LockStepQueues(s, s', c, step);
    SameCounters(s, s');
  }

  lemma PushItems(s: State, s': State, c: ClientId)
    requires Wf(s) && QueuesOk(s) && ClientStep(s, s', Push(c), c)
    ensures Wf(s')
    ensures ItemsOk(s'.clients, s'.qs[s.clients[c].q], s.clients[c].q)
  {
    var q := s.clients[c].q;
    assert ItemsOk(s.clients, s.qs[q], q);
    forall i {:trigger s'.qs[q].items[i]} | 0 <= i < |s'.qs[q].items|
      ensures var d := s'.qs[q].items[i];
        d in s'.clients && Unserved(s'.clients[d]) && s'.clients[d].q == q && s'.clients[d].seqNo == |s'.qs[q].log| + i
    {
      if i < |s.qs[q].items| {
        assert s'.qs[q].items[i] == s.qs[q].items[i];
      }
    }
  }

  lemma PushOther(d: ClientId, x: Client, Q: Queue, c: ClientId)
    requires ClientOk(d, x, Q) && d != c
    ensures ClientOk(d, x, Q.(items := Q.items + [c], rear := Q.rear + 1))
  {
  }

  lemma PushQueues(s: State, s': State, c: ClientId)
    requires Wf(s) && QueuesOk(s) && ClientStep(s, s', Push(c), c)
    ensures Wf(s') && QueuesOk(s')
  {
    var q := s.clients[c].q;
    assert ClientOk(c, s.clients[c], s.qs[q]);
    PushItems(s, s', c);
    assert s.qs[q].rear == |s.qs[q].log| + |s.qs[q].items|;
    assert ClientOk(c, s'.clients[c], s'.qs[q]);
    assert FrontOk(s'.server, s'.qs[q], q) && ServerOk(s'.server, s'.qs[s'.server.q]);
    hide ClientOk, ItemsOk, FrontOk, ServerOk;
    forall d {:trigger s.clients[d]} | d in s.clients && d != c && s.clients[d].q == q
      ensures ClientOk(d, s.clients[d], s'.qs[q])
    {
      assert ClientOk(d, s.clients[d], s.qs[q]);
      PushOther(d, s.clients[d], s.qs[q], c);
    }
    LocalQueues(s, s', c, q);
  }

  lemma PushKeeps(s: State, s': State, c: ClientId)
    requires Inv(s) && ClientStep(s, s', Push(c), c)
    ensures Inv(s')
  {
    PushQueues(s, s', c);
    SameCounters(s, s');
  }

  /** A client wakes up with the epoch that its queue entry was given. */
  lemma ReturnKeeps(s: State, s': State, c: ClientId)
    requires Inv(s) && ClientStep(s, s', Return(c), c)
    ensures Inv(s')
    ensures var x := s.clients[c];
      0 <= x.epoch && x.seqNo < |s.qs[x.q].log| && s'.clients[c].epoch == s.qs[x.q].log[x.seqNo]
  {
    var q := s.clients[c].q;
    assert ClientOk(c, s.clients[c], s.qs[q]) && FrontOk(s.server, s.qs[q], q);
    assert !Unserved(s.clients[c]);
    AloneQueues(s, s', c);
    SameCounters(s, s');
  }

  lemma FetchSubCounters(s: State, s': State, c: ClientId, i: nat, wait: bool)
    requires Inv(s) && ClientStep(s, s', FetchSub(c, i, wait), c)
    ensures CountersOk(s')
  {
    hide QueuesOk, DebtsQueued, Returns;
    var e := s.clients[c].epoch;
    assert InDebt(s.clients[c]);
    forall j {:trigger s'.unfinished[j]} | 0 <= j < |s'.unfinished|
      ensures s'.unfinished[j].epoch == s.unfinished[j].epoch
      ensures s'.unfinished[j].count == |Debtors(s'.clients, s'.unfinished[j].epoch)|
                                      + if j == |s'.unfinished| - 1 then OwnCount(s'.server) else 0
    {
      if j == i {
        assert Debtors(s'.clients, e) == Debtors(s.clients, e) - {c};
        assert c in Debtors(s.clients, e);
      } else {
        assert s.unfinished[j].epoch != e;
        assert Debtors(s'.clients, s.unfinished[j].epoch) == Debtors(s.clients, s.unfinished[j].epoch);
      }
    }
  }

  lemma FetchSubKeeps(s: State, s': State, c: ClientId, i: nat, wait: bool)
    requires Inv(s) && ClientStep(s, s', FetchSub(c, i, wait), c)
    ensures Inv(s')
  {
    FetchSubCounters(s, s', c, i, wait);
    AloneQueues(s, s', c);
    SameEpochs(s.unfinished, s'.unfinished);
  }

  lemma SameEpochs(u: seq<Open>, u': seq<Open>)
    requires |u| <= |u'| && forall i {:trigger u'[i]} :: 0 <= i < |u| ==> u'[i].epoch == u[i].epoch
    ensures forall e {:trigger Queued(u', e)} {:trigger Queued(u, e)} :: Queued(u, e) ==> Queued(u', e)
  {
    forall e {:trigger Queued(u', e)} {:trigger Queued(u, e)} | Queued(u, e)
      ensures Queued(u', e)
    {
      var i :| 0 <= i < |u| && u[i].epoch == e;
      assert u'[i].epoch == e;
    }
  }

  // ---------------------------------------------------------------------------
  // Server steps.

  lemma PopCounters(s: State, s': State)
    requires Inv(s) && ServerStep(s, s', PopFinished)
    ensures CountersOk(s') && DebtsQueued(s')
  {
    var e := s.unfinished[0].epoch;
    assert Debtors(s.clients, e) == {};
    forall i {:trigger s'.unfinished[i]} | 0 <= i < |s'.unfinished|
      ensures s'.unfinished[i] == s.unfinished[i + 1]
    {
    }
    forall c {:trigger s'.clients[c]} | c in s'.clients && InDebt(s'.clients[c])
      ensures Queued(s'.unfinished, s'.clients[c].epoch)
    {
      assert Queued(s.unfinished, s.clients[c].epoch);
      var i :| 0 <= i < |s.unfinished| && s.unfinished[i].epoch == s.clients[c].epoch;
      assert i != 0 by {
        assert c !in Debtors(s.clients, e);
      }
      assert s'.unfinished[i - 1] == s.unfinished[i];
    }
  }

  /** The server touches one queue without changing its items or its log. */
  lemma ServerQueues(s: State, s': State, q: nat)
    requires Wf(s) && Wf(s') && QueuesOk(s) && q < 2 && s'.clients == s.clients
    requires s'.qs == s.qs[q := s.qs[q].(mutex := s'.qs[q].mutex, front := s'.qs[q].front)]
    requires s'.qs[q].mutex == s.qs[q].mutex || s.qs[q].mutex.Free? || s.qs[q].mutex.ByServer?
    requires FrontOk(s'.server, s'.qs[0], 0) && FrontOk(s'.server, s'.qs[1], 1)
    requires ServerOk(s'.server, s'.qs[s'.server.q])
    ensures QueuesOk(s')
  {
    hide ItemsOk, ClientOk, FrontOk, ServerOk;
    ItemsFrame(s.clients, s'.clients, s.qs[0], s'.qs[0], 0);
    ItemsFrame(s.clients, s'.clients, s.qs[1], s'.qs[1], 1);
    forall c {:trigger s'.clients[c]} | c in s'.clients
      ensures ClientOk(c, s'.clients[c], s'.qs[s'.clients[c].q])
    {
      assert ClientOk(c, s.clients[c], s.qs[s.clients[c].q]);
      if s.clients[c].q == q {
        ServerOther(c, s.clients[c], s.qs[q], s'.qs[q].mutex, s'.qs[q].front);
      }
    }
  }

  /** A mutex that the server takes or gives back, or a sequence number that it moves, is no
      matter to a client in the queue. */
  lemma ServerOther(c: ClientId, x: Client, Q: Queue, h: Holder, front: nat)
    requires ClientOk(c, x, Q) && (h == Q.mutex || Q.mutex.Free? || Q.mutex.ByServer?)
    ensures ClientOk(c, x, Q.(mutex := h, front := front))
  {
  }

  lemma QuietServerKeeps(s: State, s': State, step: Step)
    requires Inv(s) && ServerStep(s, s', step)
    requires || step.Choose? || step.ServerAcquire? || step.Park? || step.TakeQueue?
             || step.ReleaseMutex? || step.MoveFront? || step.Close?
    ensures Inv(s')
  {
    assert FrontOk(s.server, s.qs[0], 0) && FrontOk(s.server, s.qs[1], 1) && ServerOk(s.server, s.qs[s.server.q]);
    ServerQueues(s, s', s.server.q);
    SameCounters(s, s');
  }

  lemma PopKeeps(s: State, s': State)
    requires Inv(s) && ServerStep(s, s', PopFinished)
    ensures Inv(s') && s.global < s'.global
  {
    PopCounters(s, s');
  }

  lemma OpenCounters(s: State, s': State)
    requires Inv(s) && ServerStep(s, s', OpenBatch)
    ensures CountersOk(s') && DebtsQueued(s')
  {
    if s.qs[s.server.q].items == [] {
      SameCounters(s, s');
    } else {
      OpenedCounters(s, s');
      SameEpochs(s.unfinished, s'.unfinished);
    }
  }

  lemma OpenedCounters(s: State, s': State)
    requires CountersOk(s) && DebtsQueued(s) && s'.clients == s.clients && s'.global == s.global
    requires s'.writing == s.writing + 1 && s'.unfinished == s.unfinished + [Open(s.writing + 1, 0)]
    requires !InBatch(s.server) && OwnCount(s'.server) == 0
    ensures CountersOk(s')
  {
    NoDebtsYet(s);
    forall i {:trigger s'.unfinished[i]} | 0 <= i < |s'.unfinished|
      ensures i < |s.unfinished| ==> s'.unfinished[i] == s.unfinished[i]
    {
    }
  }

  lemma NoDebtsYet(s: State)
    requires CountersOk(s) && DebtsQueued(s)
    ensures Debtors(s.clients, s.writing + 1) == {}
  {
    forall c {:trigger s.clients[c]} | c in s.clients && InDebt(s.clients[c])
      ensures s.clients[c].epoch <= s.writing
    {
      assert Queued(s.unfinished, s.clients[c].epoch);
    }
  }

  lemma OpenKeeps(s: State, s': State)
    requires Inv(s) && ServerStep(s, s', OpenBatch)
    ensures Inv(s')
  {
    assert FrontOk(s.server, s.qs[0], 0) && FrontOk(s.server, s.qs[1], 1) && ServerOk(s.server, s.qs[s.server.q]);
    ServerQueues(s, s', s.server.q);
    OpenCounters(s, s');
  }

  /** The client that is served next: asleep, at the front, still without an epoch. */
  lemma NextClient(s: State, s': State)
    requires Wf(s) && QueuesOk(s) && ServerStep(s, s', Assign)
    ensures var c := s.qs[s.server.q].items[0];
      && s.clients[c].pc.Asleep? && s.clients[c].epoch < 0
      && s.clients[c].q == s.server.q && s.clients[c].seqNo == |s.qs[s.server.q].log|
  {
    var q := s.server.q;
    var c := s.qs[q].items[0];
    assert ItemsOk(s.clients, s.qs[q], q) && ServerOk(s.server, s.qs[q]) && ClientOk(c, s.clients[c], s.qs[q]);
  }

  lemma AssignCounters(s: State, s': State, c: ClientId)
    requires CountersOk(s) && s.unfinished != [] && c in s.clients && InBatch(s.server) && OwnCount(s.server) == 0
    requires !InDebt(s.clients[c]) && s.clients[c].pc.Asleep?
    requires s'.clients == s.clients[c := s.clients[c].(epoch := s.writing)] && s'.global == s.global
    requires s'.writing == s.writing
    requires OwnCount(s'.server) == 0
    requires var last := |s.unfinished| - 1;
      s'.unfinished == s.unfinished[last := Open(s.writing, s.unfinished[last].count + 1)]
    ensures CountersOk(s')
  {
    forall j {:trigger s'.unfinished[j]} | 0 <= j < |s'.unfinished|
      ensures s'.unfinished[j].epoch == s.unfinished[j].epoch
      ensures s'.unfinished[j].count == |Debtors(s'.clients, s'.unfinished[j].epoch)|
    {
      var e := s.unfinished[j].epoch;
      if j == |s.unfinished| - 1 {
        assert Debtors(s'.clients, e) == Debtors(s.clients, e) + {c};
        assert c !in Debtors(s.clients, e);
      } else {
        assert e != s.writing;
        assert Debtors(s'.clients, e) == Debtors(s.clients, e);
      }
    }
  }

  lemma AssignDebts(s: State, s': State)
    requires Inv(s) && ServerStep(s, s', Assign)
    ensures DebtsQueued(s') && Returns(s') && Queued(s'.unfinished, s.writing)
  {
    NextClient(s, s');
    SameEpochs(s.unfinished, s'.unfinished);
    assert s'.unfinished[|s.unfinished| - 1].epoch == s.writing;
    assert Queued(s'.unfinished, s.writing);
  }

  lemma AssignItems(s: State, s': State)
    requires Wf(s) && QueuesOk(s) && ServerStep(s, s', Assign)
    ensures Wf(s')
    ensures var q := s.server.q;
      && ItemsOk(s'.clients, s'.qs[q], q) && ServerOk(s'.server, s'.qs[q])
      && FrontOk(s'.server, s'.qs[0], 0) && FrontOk(s'.server, s'.qs[1], 1)
  {
    var q := s.server.q;
    NextClient(s, s');
    assert ItemsOk(s.clients, s.qs[q], q);
    assert ServerOk(s.server, s.qs[q]) && FrontOk(s.server, s.qs[0], 0) && FrontOk(s.server, s.qs[1], 1);
    forall i {:trigger s'.qs[q].items[i]} | 0 <= i < |s'.qs[q].items|
      ensures var d := s'.qs[q].items[i];
        d in s'.clients && Unserved(s'.clients[d]) && s'.clients[d].q == q && s'.clients[d].seqNo == |s'.qs[q].log| + i
    {
      assert s'.qs[q].items[i] == s.qs[q].items[i + 1];
    }
  }

  lemma AssignServed(s: State, s': State, c: ClientId)
    requires Inv(s) && ServerStep(s, s', Assign) && c == s.qs[s.server.q].items[0]
    ensures c in s'.clients && s'.clients[c].q == s.server.q && |s'.qs| == 2
    ensures ClientOk(c, s'.clients[c], s'.qs[s.server.q])
  {
    NextClient(s, s');
  }

  lemma AssignQueues(s: State, s': State)
    requires Inv(s) && ServerStep(s, s', Assign)
    ensures Wf(s') && QueuesOk(s')
  {
    hide ClientOk, FrontOk, ServerOk, ItemsOk;
    var q := s.server.q;
    var c := s.qs[q].items[0];
    AssignServed(s, s', c);
    AssignItems(s, s');
    forall d {:trigger s.clients[d]} | d in s.clients && d != c && s.clients[d].q == q
      ensures ClientOk(d, s.clients[d], s'.qs[q])
    {
      AssignOther(s, s', d);
    }
    LocalQueues(s, s', c, q);
  }

  lemma AssignOther(s: State, s': State, d: ClientId)
    requires Wf(s) && QueuesOk(s) && ServerStep(s, s', Assign) && |s'.qs| == 2
    requires d in s.clients && d != s.qs[s.server.q].items[0] && s.clients[d].q == s.server.q
    ensures ClientOk(d, s.clients[d], s'.qs[s.server.q])
  {
    var q := s.server.q;
    assert ClientOk(d, s.clients[d], s.qs[q]);
    if Unserved(s.clients[d]) {
      var i := s.clients[d].seqNo - |s.qs[q].log|;
      assert i != 0 && s'.qs[q].items[i - 1] == s.qs[q].items[i];
    }
  }

  /** Handing out an epoch: it is the writing epoch, above everything readable, and the
      client's counter is in the queue. */
  lemma AssignKeeps(s: State, s': State)
    requires Inv(s) && ServerStep(s, s', Assign)
    ensures Inv(s')
    ensures var c := s.qs[s.server.q].items[0];
      s'.clients[c].epoch == s.writing > s.global && Queued(s'.unfinished, s.writing)
  {
    NextClient(s, s');
    AssignCounters(s, s', s.qs[s.server.q].items[0]);
    AssignDebts(s, s');
    AssignQueues(s, s');
  }

  lemma OwnCountKeeps(s: State, s': State, step: Step)
    requires Inv(s) && ServerStep(s, s', step) && (step.EndAssign? || step.DropOwn?)
    ensures Inv(s')
  {
    assert FrontOk(s.server, s.qs[0], 0) && FrontOk(s.server, s.qs[1], 1) && ServerOk(s.server, s.qs[s.server.q]);
    ServerQueues(s, s', s.server.q);
    forall j {:trigger s'.unfinished[j]} | 0 <= j < |s'.unfinished|
      ensures s'.unfinished[j].epoch == s.unfinished[j].epoch
      ensures s'.unfinished[j].count == |Debtors(s'.clients, s'.unfinished[j].epoch)|
                                      + if j == |s'.unfinished| - 1 then OwnCount(s'.server) else 0
    {
    }
    SameEpochs(s.unfinished, s'.unfinished);
  }

  // ---------------------------------------------------------------------------
  // Whole runs.

  lemma ClientKeeps(s: State, s': State, step: Step, c: ClientId)
    requires Inv(s) && ClientStep(s, s', step, c)
    ensures Inv(s') && s'.global == s.global
  {
    match step {
      case Load(_) => LoadKeeps(s, s', c, step);
      case Acquire(_) => LockKeeps(s, s', c, step);
      case Retry(_) => LockKeeps(s, s', c, step);
      case Push(_) => PushKeeps(s, s', c);
      case Release(_) => LockKeeps(s, s', c, step);
      case Return(_) => ReturnKeeps(s, s', c);
      case FetchSub(_, i, wait) => FetchSubKeeps(s, s', c, i, wait);
      case Leave(_) => LoadKeeps(s, s', c, step);
    }
  }

  lemma ServerKeeps(s: State, s': State, step: Step)
    requires Inv(s) && ServerStep(s, s', step)
    ensures Inv(s') && s.global <= s'.global
  {
    match step {
      case PopFinished => PopKeeps(s, s');
      case OpenBatch => OpenKeeps(s, s');
      case Assign => AssignKeeps(s, s');
      case EndAssign => OwnCountKeeps(s, s', step);
      case DropOwn => OwnCountKeeps(s, s', step);
      case _ => QuietServerKeeps(s, s', step);
    }
  }

  lemma {:induction false} RunInv(run: seq<State>, i: nat)
    requires IsRun(run) && i < |run|
    ensures Inv(run[i])
  {
    hide Inv, Next, Init;
    if i == 0 {
      InitInv(run[0]);
    } else {
      RunInv(run, i - 1);
      assert Next(run[i - 1], run[i]);
      NextKeeps(run[i - 1], run[i]);
    }
  }

  lemma {:induction false} GlobalGrows(run: seq<State>, i: nat, j: nat)
    requires IsRun(run) && i <= j < |run|
    ensures run[i].global <= run[j].global
    decreases j
  {
    hide Inv, Next, Init;
    if i < j {
      GlobalGrows(run, i, j - 1);
      RunInv(run, j - 1);
      assert Next(run[j - 1], run[j]);
      NextKeeps(run[j - 1], run[j]);
    }
  }

  lemma NextKeeps(s: State, s': State)
    requires Inv(s) && Next(s, s')
    ensures Inv(s') && s.global <= s'.global
  {
    var step :| NextStep(s, s', step);
    if OfClient(step) {
      ClientKeeps(s, s', step, step.c);
    } else {
      ServerKeeps(s, s', step);
    }
  }

  /** The global epoch never decreases, and it covers an epoch only when every client that
      was given this epoch or a smaller one has called finish_commit. */
  lemma EpochSafety(run: seq<State>, i: nat, j: nat, c: ClientId)
    requires IsRun(run) && i <= j < |run|
    ensures run[i].global <= run[j].global <= run[j].writing
    ensures c in run[j].clients && InDebt(run[j].clients[c]) ==> run[j].global < run[j].clients[c].epoch
  {
    RunInv(run, j);
    GlobalGrows(run, i, j);
    if c in run[j].clients && InDebt(run[j].clients[c]) {
      assert Queued(run[j].unfinished, run[j].clients[c].epoch);
    }
  }

  /** A client that is back from register_commit has the epoch its queue entry was given,
      and the counter it is about to decrement is still queued and positive, however often
      the two queues have been swapped in between. */
  lemma CounterOutlivesClient(run: seq<State>, i: nat, c: ClientId)
    requires IsRun(run) && i < |run| && c in run[i].clients && run[i].clients[c].pc.Returned?
    ensures exists k :: 0 <= k < |run[i].unfinished| && run[i].unfinished[k].epoch == run[i].clients[c].epoch
                   && 0 < run[i].unfinished[k].count
  {
    RunInv(run, i);
    var s, e := run[i], run[i].clients[c].epoch;
    assert InDebt(s.clients[c]) && Queued(s.unfinished, e);
    var k :| 0 <= k < |s.unfinished| && s.unfinished[k].epoch == e;
    assert c in Debtors(s.clients, e);
    assert 0 < |Debtors(s.clients, e)|;
  }

  /** A client waiting for seq_front finds its own batch's epoch once it may return. */
  lemma OwnBatchEpoch(run: seq<State>, i: nat, c: ClientId)
    requires IsRun(run) && i < |run| && c in run[i].clients && run[i].clients[c].pc.Asleep?
    requires run[i].clients[c].q < |run[i].qs| && run[i].clients[c].seqNo < run[i].qs[run[i].clients[c].q].front
    ensures var x := run[i].clients[c];
      var Q := run[i].qs[x.q];
      x.seqNo < |Q.log| && x.epoch == Q.log[x.seqNo] && run[i].global < x.epoch <= run[i].writing
  {
    RunInv(run, i);
    var s := run[i];
    var q := s.clients[c].q;
    assert ClientOk(c, s.clients[c], s.qs[q]) && FrontOk(s.server, s.qs[q], q) && ServerOk(s.server, s.qs[s.server.q]);
    assert InDebt(s.clients[c]) && Queued(s.unfinished, s.clients[c].epoch);
  }

  // ---------------------------------------------------------------------------
  // What finish_commit waits for.

  /** The client is in finish_commit with `wait` for epoch `e`. */
  ghost predicate AwaitsEpoch(s: State, c: ClientId, e: int) {
    c in s.clients && s.clients[c].pc.Counted? && s.clients[c].wait && s.clients[c].epoch == e
  }

  lemma StepAwaits(s: State, s': State, step: Step, c: ClientId, e: int)
    requires Inv(s) && NextStep(s, s', step) && AwaitsEpoch(s, c, e)
    ensures AwaitsEpoch(s', c, e) || e <= s'.global
  {
    hide CountersOk, DebtsQueued, Returns, ItemsOk, FrontOk;
    if step.Assign? {
      NextClient(s, s');
    }
  }

  lemma {:induction false} AwaitsUntil(run: seq<State>, i: nat, j: nat, c: ClientId, e: int)
    requires IsRun(run) && i <= j < |run| && AwaitsEpoch(run[i], c, e)
    ensures (forall m :: i <= m <= j ==> AwaitsEpoch(run[m], c, e)) || e <= run[j].global
    decreases j
  {
    hide Inv, Next, Init, AwaitsEpoch;
    if i < j {
      AwaitsUntil(run, i, j - 1, c, e);
      RunInv(run, j - 1);
      assert Next(run[j - 1], run[j]);
      GlobalGrows(run, j - 1, j);
      if !(e <= run[j - 1].global) {
        assert AwaitsEpoch(run[j - 1], c, e);
        AwaitsNext(run[j - 1], run[j], c, e);
      }
    }
  }

  lemma AwaitsNext(s: State, s': State, c: ClientId, e: int)
    requires Inv(s) && Next(s, s') && AwaitsEpoch(s, c, e)
    ensures AwaitsEpoch(s', c, e) || e <= s'.global
  {
    var step :| NextStep(s, s', step);
    StepAwaits(s, s', step, c, e);
  }

  lemma FetchSubAwaits(s: State, s': State, c: ClientId, x: nat)
    requires NextStep(s, s', FetchSub(c, x, true))
    ensures c in s.clients && AwaitsEpoch(s', c, s.clients[c].epoch)
  {
  }

  lemma NotAwaiting(s: State, c: ClientId, e: int)
    requires c in s.clients && !s.clients[c].pc.Counted?
    ensures !AwaitsEpoch(s, c, e)
  {
  }

  /** finish_commit with `wait`: when the call has returned, the epoch of the commit is readable,
      and it stays so. */
  lemma ReturnsReadable(run: seq<State>, i: nat, j: nat, l: nat, c: ClientId, x: nat)
    requires IsRun(run) && i < j <= l < |run| && NextStep(run[i], run[i + 1], FetchSub(c, x, true))
    requires c in run[i].clients && c in run[j].clients && !run[j].clients[c].pc.Counted?
    ensures run[i].clients[c].epoch <= run[l].global
  {
    hide NextStep, IsRun, AwaitsEpoch;
    var e := run[i].clients[c].epoch;
    FetchSubAwaits(run[i], run[i + 1], c, x);
    AwaitsUntil(run, i + 1, j, c, e);
    NotAwaiting(run[j], c, e);
    GlobalGrows(run, j, l);
  }

  // ---------------------------------------------------------------------------
  // The queues alternate, and nothing holds a finished epoch back.

  /** From the flip until the server chooses again, clients are sent to the other queue. */
  ghost predicate Alternates(s: State) {
    && (s.server.pc.Choosing? || s.server.pc.Waiting? || s.server.pc.Parked? ==> s.which == s.server.q)
    && (s.server.pc.Flipped? || InBatch(s.server) || s.server.pc.Stopped? ==> s.which == 1 - s.server.q)
  }

  lemma StepAlternates(s: State, s': State, step: Step)
    requires Wf(s) && Alternates(s) && NextStep(s, s', step)
    ensures Alternates(s')
  {
  }

  lemma {:induction false} RunAlternates(run: seq<State>, i: nat)
    requires IsRun(run) && i < |run|
    ensures Wf(run[i]) && Alternates(run[i])
  {
    hide Next;
    RunWf(run, i);
    if i > 0 {
      RunAlternates(run, i - 1);
      assert Next(run[i - 1], run[i]);
      AlternatesNext(run[i - 1], run[i]);
    }
  }

  lemma RunWf(run: seq<State>, i: nat)
    requires IsRun(run) && i < |run|
    ensures Wf(run[i])
  {
    RunInv(run, i);
  }

  lemma AlternatesNext(s: State, s': State)
    requires Wf(s) && Alternates(s) && Next(s, s')
    ensures Alternates(s')
  {
    var step :| NextStep(s, s', step);
    StepAlternates(s, s', step);
  }

  /** While a batch is being given out and written, whoever comes is sent to the other queue. */
  lemma NewcomersGoElsewhere(run: seq<State>, i: nat, c: ClientId)
    requires IsRun(run) && i + 1 < |run| && InBatch(run[i].server) && NextStep(run[i], run[i + 1], Load(c))
    ensures c in run[i + 1].clients && run[i + 1].clients[c].q == 1 - run[i].server.q
  {
    RunAlternates(run, i);
  }

  /** As soon as all clients of the oldest open epoch have called finish_commit, and the server
      is between two batches, that epoch can be published. */
  lemma FinishedEpochPops(run: seq<State>, i: nat)
    requires IsRun(run) && i < |run| && run[i].unfinished != []
    requires run[i].server.pc.Checking? || run[i].server.pc.Waiting?
    requires forall c :: c in run[i].clients && InDebt(run[i].clients[c]) ==>
      run[i].clients[c].epoch != run[i].unfinished[0].epoch
    ensures var s, e := run[i], run[i].unfinished[0].epoch;
      NextStep(s, s.(global := e, unfinished := s.unfinished[1..]), PopFinished)
  {
    RunInv(run, i);
    var s := run[i];
    assert Debtors(s.clients, s.unfinished[0].epoch) == {};
  }

  /** The server leaves a queue empty-handed only when the manager has been closed. */
  ghost predicate StopOk(s: State)
    requires Wf(s)
  {
    && (s.server.pc.Flipped? ==> s.qs[s.server.q].items != [] || s.closed)
    && (s.server.pc.Stopped? ==> s.closed)
  }

  lemma NextStopOk(s: State, s': State)
    requires Wf(s) && StopOk(s) && Next(s, s') && Wf(s')
    ensures StopOk(s')
  {
    hide StopOk, ClientStep, ServerStep;
    var step :| NextStep(s, s', step);
    if OfClient(step) {
      ClientStopOk(s, s', step);
    } else {
      ServerStopOk(s, s', step);
    }
  }

  lemma ClientStopOk(s: State, s': State, step: Step)
    requires Wf(s) && StopOk(s) && OfClient(step) && ClientStep(s, s', step, step.c) && Wf(s')
    ensures StopOk(s')
  {
    assert s'.server == s.server && |s'.qs[s.server.q].items| >= |s.qs[s.server.q].items|;
  }

  lemma ServerStopOk(s: State, s': State, step: Step)
    requires Wf(s) && StopOk(s) && ServerStep(s, s', step) && Wf(s')
    ensures StopOk(s')
  {
  }

  /** The server stops only when the manager has been closed, and then it does as soon as it
      finds a queue empty. */
  lemma {:induction false} StopsWhenClosed(run: seq<State>, i: nat)
    requires IsRun(run) && i < |run|
    ensures Wf(run[i]) && StopOk(run[i])
    ensures run[i].server.pc.Flipped? && run[i].qs[run[i].server.q].items == [] && i + 1 < |run| ==>
      run[i].closed && (run[i + 1].server.pc.Flipped? || run[i + 1].server.pc.Stopped?)
  {
    hide StopOk;
    RunWf(run, i);
    if i > 0 {
      StopsWhenClosed(run, i - 1);
      assert Next(run[i - 1], run[i]);
      NextStopOk(run[i - 1], run[i]);
    } else {
      InitStopOk(run[0]);
    }
    if i + 1 < |run| {
      assert Next(run[i], run[i + 1]);
      EmptyStops(run[i], run[i + 1]);
    }
  }

  lemma InitStopOk(s: State)
    requires Init(s)
    ensures StopOk(s)
  {
  }

  lemma EmptyStops(s: State, s': State)
    requires Wf(s) && StopOk(s) && Next(s, s')
    ensures s.server.pc.Flipped? && s.qs[s.server.q].items == [] ==>
      s.closed && (s'.server.pc.Flipped? || s'.server.pc.Stopped?)
  {
  }

  /** A mutex is held only by somebody who is about to release it. */
  ghost predicate MutexOk(s: State, q: nat)
    requires q < |s.qs|
  {
    match s.qs[q].mutex
    case Free => true
    case ByServer =>
      && s.server.q == q
      && (s.server.pc.Waiting? || s.server.pc.Flipped? || s.server.pc.Assigning? || s.server.pc.Holding?)
    case ByClient(c) =>
      c in s.clients && s.clients[c].q == q && (s.clients[c].pc.Locked? || s.clients[c].pc.Pushed?)
  }

  lemma ClientMutex(s: State, s': State, step: Step, q: nat)
    requires Inv(s) && OfClient(step) && ClientStep(s, s', step, step.c) && q < 2 && MutexOk(s, q)
    ensures q < |s'.qs| && MutexOk(s', q)
  {
    hide CountersOk, DebtsQueued, Returns, ItemsOk, FrontOk;
    assert ClientOk(step.c, s.clients[step.c], s.qs[s.clients[step.c].q]);
  }

  lemma ServerMutex(s: State, s': State, step: Step, q: nat)
    requires Inv(s) && ServerStep(s, s', step) && q < 2 && MutexOk(s, q)
    ensures q < |s'.qs| && MutexOk(s', q)
  {
    hide CountersOk, DebtsQueued, Returns, ItemsOk, FrontOk;
    if step.Assign? {
      NextClient(s, s');
    }
  }

  lemma NextMutex(s: State, s': State, q: nat)
    requires Inv(s) && Next(s, s') && q < 2 && MutexOk(s, q)
    ensures q < |s'.qs| && MutexOk(s', q)
  {
    hide QueuesOk, CountersOk, DebtsQueued, Returns, MutexOk, ClientStep, ServerStep;
    var step :| NextStep(s, s', step);
    if OfClient(step) {
      ClientMutex(s, s', step, q);
    } else {
      ServerMutex(s, s', step, q);
    }
  }

  /** No queue mutex stays locked: over all runs its holder is in the section that releases it. */
  lemma {:induction false} MutexHeldInside(run: seq<State>, i: nat, q: nat)
    requires IsRun(run) && i < |run| && q < 2
    ensures q < |run[i].qs| && MutexOk(run[i], q)
  {
    hide Inv, Next, MutexOk;
    if i == 0 {
      InitMutex(run[0], q);
    } else {
      MutexHeldInside(run, i - 1, q);
      RunInv(run, i - 1);
      assert Next(run[i - 1], run[i]);
      NextMutex(run[i - 1], run[i], q);
    }
  }

  lemma InitMutex(s: State, q: nat)
    requires Init(s) && q < 2
    ensures q < |s.qs| && MutexOk(s, q)
  {
  }

  // ---------------------------------------------------------------------------
  // Nobody gets stuck.

  ghost predicate Enabled(s: State, step: Step) {
    exists s' :: NextStep(s, s', step)
  }

  ghost predicate CanFinish(s: State, c: ClientId, wait: bool) {
    exists i :: Enabled(s, FetchSub(c, i, wait))
  }

  /** The step that a client comes to next. */
  ghost predicate ClientGoesOn(s: State, c: ClientId)
    requires Wf(s) && c in s.clients
  {
    var x := s.clients[c];
    match x.pc
    case Out => Enabled(s, Load(c))
    case Chosen => s.qs[x.q].mutex.Free? ==> Enabled(s, Acquire(c))
    case Locked => Enabled(s, if x.q == s.which then Push(c) else Retry(c))
    case Pushed => Enabled(s, Release(c))
    case Asleep => x.seqNo < s.qs[x.q].front && !ClientMutexHeld(s.server, x.q) ==> Enabled(s, Return(c))
    case Returned => CanFinish(s, c, true) && CanFinish(s, c, false)
    case Counted => (x.wait ==> x.epoch <= s.global) ==> Enabled(s, Leave(c))
  }

  lemma ClientStepEnabled(s: State, s': State, step: Step)
    requires Wf(s) && OfClient(step) && ClientStep(s, s', step, step.c)
    ensures Enabled(s, step)
  {
    assert NextStep(s, s', step);
  }

  lemma ReturnedGoesOn(s: State, c: ClientId, wait: bool)
    requires Inv(s) && c in s.clients && s.clients[c].pc.Returned?
    ensures CanFinish(s, c, wait)
  {
    var x := s.clients[c];
    assert InDebt(x) && Queued(s.unfinished, x.epoch);
    var i :| 0 <= i < |s.unfinished| && s.unfinished[i].epoch == x.epoch;
    ClientStepEnabled(s, Count(Move(s, c, x.(pc := Counted, wait := wait)), i, -1), FetchSub(c, i, wait));
  }

  lemma ClientCanGo(s: State, c: ClientId)
    requires Inv(s) && c in s.clients
    ensures ClientGoesOn(s, c)
  {
    hide QueuesOk, CountersOk, DebtsQueued, Returns, Enabled, NextStep, ClientMutexHeld, CanFinish;
    var x := s.clients[c];
    var Q := s.qs[x.q];
    match x.pc {
      case Out => ClientStepEnabled(s, Move(s, c, Client(Chosen, s.which, 0, -1, false)), Load(c));
      case Chosen =>
        if Q.mutex.Free? {
          ClientStepEnabled(s, SetQueue(Move(s, c, x.(pc := Locked)), x.q, Q.(mutex := ByClient(c))), Acquire(c));
        }
      case Locked =>
        if x.q == s.which {
          ClientStepEnabled(s, SetQueue(Move(s, c, x.(pc := Pushed, seqNo := Q.rear)), x.q,
                                        Q.(items := Q.items + [c], rear := Q.rear + 1)), Push(c));
        } else {
          ClientStepEnabled(s, SetQueue(Move(s, c, x.(pc := Out)), x.q, Q.(mutex := Free)), Retry(c));
        }
      case Pushed => ClientStepEnabled(s, SetQueue(Move(s, c, x.(pc := Asleep)), x.q, Q.(mutex := Free)), Release(c));
      case Asleep =>
        if x.seqNo < Q.front && !ClientMutexHeld(s.server, x.q) {
          ClientStepEnabled(s, Move(s, c, x.(pc := Returned)), Return(c));
        }
      case Returned =>
        ReturnedGoesOn(s, c, true);
        ReturnedGoesOn(s, c, false);
      case Counted =>
        if x.wait ==> x.epoch <= s.global {
          ClientStepEnabled(s, Move(s, c, x.(pc := Out)), Leave(c));
        }
    }
  }

  /** The step that the server comes to next. */
  ghost predicate ServerGoesOn(s: State)
    requires Wf(s)
  {
    match s.server.pc
    case Checking => Enabled(s, Choose)
    case Choosing => s.qs[s.server.q].mutex.Free? ==> Enabled(s, ServerAcquire)
    case Parked => s.qs[s.server.q].mutex.Free? ==> Enabled(s, ServerAcquire)
    case Waiting => Enabled(s, if s.qs[s.server.q].items == [] && !s.closed then Park else TakeQueue)
    case Flipped => Enabled(s, OpenBatch)
    case Assigning => Enabled(s, if s.server.left == 0 then EndAssign else Assign)
    case Holding => Enabled(s, ReleaseMutex)
    case Fronting => Enabled(s, MoveFront)
    case Dropping => Enabled(s, DropOwn)
    case Stopped => true
  }

  lemma ServerStepEnabled(s: State, s': State, step: Step)
    requires Wf(s) && !OfClient(step) && ServerStep(s, s', step)
    ensures Enabled(s, step)
  {
    assert NextStep(s, s', step);
  }

  lemma BatchGoesOn(s: State)
    requires Inv(s) && InBatch(s.server)
    ensures ServerGoesOn(s)
  {
    hide Enabled, NextStep, Returns, DebtsQueued, ClientOk;
    var p := s.server;
    var Q := s.qs[p.q];
    assert ItemsOk(s.clients, Q, p.q) && ServerOk(p, Q);
    match p.pc {
      case Assigning =>
        if p.left == 0 {
          ServerStepEnabled(s, Count(s.(server := p.(pc := Holding)), |s.unfinished| - 1, 1), EndAssign);
        } else {
          var c := Q.items[0];
          assert c in s.clients;
          ServerStepEnabled(s, SetQueue(Count(Move(s, c, s.clients[c].(epoch := s.writing)), |s.unfinished| - 1, 1)
                                          .(server := p.(left := p.left - 1)),
                                        p.q, Q.(items := Q.items[1..], log := Q.log + [s.writing])), Assign);
        }
      case Holding =>
        ServerStepEnabled(s, SetQueue(s.(server := p.(pc := Fronting)), p.q, Q.(mutex := Free)), ReleaseMutex);
      case Fronting =>
        ServerStepEnabled(s, SetQueue(s.(server := p.(pc := Dropping)), p.q, Q.(front := Q.front + p.num)), MoveFront);
      case Dropping => ServerStepEnabled(s, Count(s.(server := p.(pc := Checking)), |s.unfinished| - 1, -1), DropOwn);
    }
  }

  lemma AcquireEnabled(s: State)
    requires Wf(s) && (s.server.pc.Choosing? || s.server.pc.Parked?)
    ensures s.qs[s.server.q].mutex.Free? ==> Enabled(s, ServerAcquire)
  {
    var p := s.server;
    var Q := s.qs[p.q];
    if Q.mutex.Free? {
      ServerStepEnabled(s, SetQueue(s.(server := p.(pc := Waiting)), p.q, Q.(mutex := ByServer)), ServerAcquire);
    }
  }

  lemma ServerCanGo(s: State)
    requires Inv(s)
    ensures ServerGoesOn(s)
  {
    hide QueuesOk, CountersOk, DebtsQueued, Returns, Enabled, NextStep;
    var p := s.server;
    var Q := s.qs[p.q];
    if InBatch(p) {
      BatchGoesOn(s);
    } else {
      match p.pc {
        case Checking => ServerStepEnabled(s, s.(server := Server(Choosing, s.which, 0, 0)), Choose);
        case Waiting =>
          if Q.items == [] && !s.closed {
            ServerStepEnabled(s, SetQueue(s.(server := p.(pc := Parked)), p.q, Q.(mutex := Free)), Park);
          } else {
            ServerStepEnabled(s, s.(server := p.(pc := Flipped), which := 1 - s.which), TakeQueue);
          }
        case Flipped =>
          if Q.items == [] {
            ServerStepEnabled(s, SetQueue(s.(server := p.(pc := Stopped)), p.q, Q.(mutex := Free)), OpenBatch);
          } else {
            ServerStepEnabled(s, s.(server := Server(Assigning, p.q, |Q.items|, |Q.items|), writing := s.writing + 1,
                                    unfinished := s.unfinished + [Open(s.writing + 1, 0)]), OpenBatch);
          }
        case Choosing => AcquireEnabled(s);
        case Parked => AcquireEnabled(s);
        case _ =>
      }
    }
  }

  /** Over all runs nobody gets stuck: the server and every client can take their next step,
      unless they wait for a mutex, for their batch or for their epoch, as they should. */
  lemma NobodyStuck(run: seq<State>, i: nat)
    requires IsRun(run) && i < |run|
    ensures Wf(run[i]) && ServerGoesOn(run[i])
    ensures forall c :: c in run[i].clients ==> ClientGoesOn(run[i], c)
  {
    hide Inv, ServerGoesOn, ClientGoesOn;
    RunInv(run, i);
    RunWf(run, i);
    ServerCanGo(run[i]);
    forall c | c in run[i].clients
      ensures ClientGoesOn(run[i], c)
    {
      ClientCanGo(run[i], c);
    }
  }

  // ---------------------------------------------------------------------------
  // One client commits.

  /** The moments of a commit by a single client: it queues itself, the server takes the queue
      and gives it epoch `e` + 1, it writes, the server publishes the epoch, and it returns. */
  function Moment(e: int, i: nat): State
    requires i <= 17
  {
    var x := Client(Out, 0, 0, -1, false);
    var chosen, queued, served := x.(pc := Chosen), x.(pc := Asleep), x.(pc := Asleep, epoch := e + 1);
    var q0, q1 := Queue(Free, [], 0, 0, []), Queue(Free, [0], 0, 1, []);
    var q2 := Queue(ByServer, [], 0, 1, [e + 1]);
    var q3 := Queue(Free, [], 1, 1, [e + 1]);
    var idle := Server(Checking, 0, 0, 0);
    var one := Server(Assigning, 0, 1, 1);
    var last := one.(pc := Checking, left := 0);
    var counted := served.(pc := Counted, wait := true);
    match i
    case 0 => State(map[0 := x], idle, 0, [q0, q0], [], e, e, false)
    case 1 => State(map[0 := chosen], idle, 0, [q0, q0], [], e, e, false)
    case 2 => State(map[0 := x.(pc := Locked)], idle, 0, [q0.(mutex := ByClient(0)), q0], [], e, e, false)
    case 3 => State(map[0 := x.(pc := Pushed)], idle, 0, [q1.(mutex := ByClient(0)), q0], [], e, e, false)
    case 4 => State(map[0 := queued], idle, 0, [q1, q0], [], e, e, false)
    case 5 => State(map[0 := queued], Server(Choosing, 0, 0, 0), 0, [q1, q0], [], e, e, false)
    case 6 => State(map[0 := queued], Server(Waiting, 0, 0, 0), 0, [q1.(mutex := ByServer), q0], [], e, e, false)
    case 7 => State(map[0 := queued], Server(Flipped, 0, 0, 0), 1, [q1.(mutex := ByServer), q0], [], e, e, false)
    case 8 => State(map[0 := queued], one, 1, [q1.(mutex := ByServer), q0], [Open(e + 1, 0)], e + 1, e, false)
    case 9 => State(map[0 := served], one.(left := 0), 1, [q2, q0], [Open(e + 1, 1)], e + 1, e, false)
    case 10 => State(map[0 := served], one.(pc := Holding, left := 0), 1, [q2, q0], [Open(e + 1, 2)], e + 1, e, false)
    case 11 =>
      State(map[0 := served], one.(pc := Fronting, left := 0), 1, [q2.(mutex := Free), q0], [Open(e + 1, 2)],
            e + 1, e, false)
    case 12 => State(map[0 := served], one.(pc := Dropping, left := 0), 1, [q3, q0], [Open(e + 1, 2)], e + 1, e, false)
    case 13 => State(map[0 := served], last, 1, [q3, q0], [Open(e + 1, 1)], e + 1, e, false)
    case 14 => State(map[0 := served.(pc := Returned)], last, 1, [q3, q0], [Open(e + 1, 1)], e + 1, e, false)
    case 15 => State(map[0 := counted], last, 1, [q3, q0], [Open(e + 1, 0)], e + 1, e, false)
    case 16 => State(map[0 := counted], last, 1, [q3, q0], [], e + 1, e + 1, false)
    case 17 => State(map[0 := counted.(pc := Out)], last, 1, [q3, q0], [], e + 1, e + 1, false)
  }

  function StepOf(i: nat): Step {
    match i
    case 0 => Load(0)
    case 1 => Acquire(0)
    case 2 => Push(0)
    case 3 => Release(0)
    case 4 => Choose
    case 5 => ServerAcquire
    case 6 => TakeQueue
    case 7 => OpenBatch
    case 8 => Assign
    case 9 => EndAssign
    case 10 => ReleaseMutex
    case 11 => MoveFront
    case 12 => DropOwn
    case 13 => Return(0)
    case 14 => FetchSub(0, 0, true)
    case 15 => PopFinished
    case _ => Leave(0)
  }

  lemma EnterMoments(e: int, i: nat)
    requires 0 <= e && i < 4
    ensures NextStep(Moment(e, i), Moment(e, i + 1), StepOf(i))
  {
    var s, s' := Moment(e, i), Moment(e, i + 1);
    assert s'.clients == s.clients[0 := s'.clients[0]];
    assert s'.qs == s.qs[0 := s'.qs[0]];
    assert i == 2 ==> s'.qs[0].items == s.qs[0].items + [0];
  }

  lemma ReturnMoments(e: int, i: nat)
    requires 0 <= e && (13 <= i < 15 || i == 16)
    ensures NextStep(Moment(e, i), Moment(e, i + 1), StepOf(i))
  {
    var s, s' := Moment(e, i), Moment(e, i + 1);
    assert s'.clients == s.clients[0 := s'.clients[0]];
    assert i == 14 ==> s'.unfinished == s.unfinished[0 := Open(e + 1, 0)];
  }

  lemma TakeMoments(e: int, i: nat)
    requires 0 <= e && (4 <= i < 8 || i == 15)
    ensures NextStep(Moment(e, i), Moment(e, i + 1), StepOf(i))
  {
    var s, s' := Moment(e, i), Moment(e, i + 1);
    assert s'.qs == s.qs[0 := s'.qs[0]];
    assert i == 7 ==> s'.unfinished == s.unfinished + [Open(e + 1, 0)];
    assert i == 15 ==> s'.unfinished == s.unfinished[1..];
  }

  lemma AssignMoment(e: int)
    requires 0 <= e
    ensures NextStep(Moment(e, 8), Moment(e, 9), Assign)
  {
    var s, s' := Moment(e, 8), Moment(e, 9);
    var Q := s.qs[0];
    assert s'.qs[0] == Q.(items := Q.items[1..], log := Q.log + [s.writing]);
    assert s'.qs == s.qs[0 := s'.qs[0]];
    assert s'.clients == s.clients[0 := s.clients[0].(epoch := s.writing)];
    assert s'.unfinished == s.unfinished[0 := Open(e + 1, 1)];
  }

  lemma ReleaseMoments(e: int, i: nat)
    requires 0 <= e && 9 <= i < 13
    ensures NextStep(Moment(e, i), Moment(e, i + 1), StepOf(i))
  {
    var s, s' := Moment(e, i), Moment(e, i + 1);
    assert s'.qs == s.qs[0 := s'.qs[0]];
    assert s'.unfinished == s.unfinished[0 := s'.unfinished[0]];
  }

  /** A single client that commits gets the next epoch, and finds it readable when it returns. */
  lemma CommitHappens(e: int) returns (run: seq<State>)
    requires 0 <= e
    ensures IsRun(run) && run[0].global == e && 0 in run[|run| - 1].clients
    ensures run[|run| - 1].clients[0].pc.Out? && run[|run| - 1].clients[0].epoch == e + 1 == run[|run| - 1].global
  {
    hide NextStep;
    run := seq(18, i requires 0 <= i < 18 => Moment(e, i));
    forall i | 0 <= i < 17
      ensures Next(run[i], run[i + 1])
    {
      if i < 4 {
        EnterMoments(e, i);
      } else if i < 8 || i == 15 {
        TakeMoments(e, i);
      } else if i == 8 {
        AssignMoment(e);
      } else if i < 13 {
        ReleaseMoments(e, i);
      } else {
        ReturnMoments(e, i);
      }
      assert NextStep(run[i], run[i + 1], StepOf(i));
    }
  }
}
