/** A commit that has returned is seen by whatever begins after it: the commit manager and the
    store together. */
module Sessions {
  import opened Timestamps
  import S = Store
  import I = StoreInvariant
  import R = SnapshotIsolation
  import G = GroupCommit
  import opened CommitEpochs

  /** The commit manager with its clients, the store with its transactions, and which
      transaction each client is committing. */
  datatype Joint = Joint(manager: G.State, store: S.State, jobs: Jobs)

  /** The client has called register_commit and not yet finish_commit. */
  predicate Active(x: G.Client) {
    !x.pc.Out? && !x.pc.Counted?
  }

  /** A client that calls register_commit brings a transaction that nobody else commits. */
  ghost predicate TakesJob(j: Joint, j': Joint, step: G.Step) {
    if step.Load? then
      && step.c in j'.jobs && j'.jobs == j.jobs[step.c := j'.jobs[step.c]]
      && (forall d :: d in j.jobs && d in j.manager.clients && d != step.c && Active(j.manager.clients[d]) ==>
            j.jobs[d] != j'.jobs[step.c])
    else j'.jobs == j.jobs
  }

  ghost predicate ManagerStep(j: Joint, j': Joint, step: G.Step) {
    && G.NextStep(j.manager, j'.manager, step) && TakesJob(j, j', step)
    && Behaves(j.manager, j'.manager, j.store, j.jobs, step)
    && match step
       case PopFinished => S.NextStep(j.store, j'.store, S.Advance(j'.manager.global))
       case Assign => S.NextStep(j.store, j'.store, S.Register(j.jobs[Front(j.manager)], j.manager.writing))
       case FetchSub(c, _, _) => S.NextStep(j.store, j'.store, S.Finish(j.jobs[c]))
       case _ => j'.store == j.store
  }

  ghost predicate StoreStep(j: Joint, j': Joint, step: S.Step) {
    && j'.manager == j.manager && j'.jobs == j.jobs && S.NextStep(j.store, j'.store, step)
    && !step.Register? && !step.Advance? && !step.Finish?
  }

  /** A step of the manager and what it is to the store, or a step of a transaction. */
  ghost predicate Next(j: Joint, j': Joint) {
    || (exists step :: ManagerStep(j, j', step))
    || (exists step :: StoreStep(j, j', step))
  }

  ghost predicate IsRun(run: seq<Joint>) {
    && run != []
    && G.Init(run[0].manager) && S.Init(run[0].store) && run[0].store.global == run[0].manager.global
    && run[0].jobs == map[]
    && (forall i :: 0 <= i < |run| - 1 ==> Next(run[i], run[i + 1]))
  }

  // ---------------------------------------------------------------------------
  // The invariant.

  predicate Busy(g: G.State, jobs: Jobs, c: G.ClientId) {
    c in jobs && c in g.clients && Active(g.clients[c])
  }

  ghost predicate OneClient(g: G.State, jobs: Jobs) {
    forall c, d :: Busy(g, jobs, c) && Busy(g, jobs, d) && jobs[c] == jobs[d] ==> c == d
  }

  ghost predicate Inv(j: Joint) {
    G.Inv(j.manager) && I.SInv(j.store) && Coupled(j.manager, j.store, j.jobs) && OneClient(j.manager, j.jobs)
  }

  /** Only Load makes a client active. */
  lemma StaysActive(g: G.State, g': G.State, step: G.Step, c: G.ClientId)
    requires G.Inv(g) && G.NextStep(g, g', step) && c in g'.clients && Active(g'.clients[c])
    ensures c in g.clients && (Active(g.clients[c]) || step == G.Load(c))
  {
    hide G.CountersOk, G.DebtsQueued, G.Returns, G.ItemsOk, G.FrontOk, G.ClientOk, G.ServerOk;
    if step.Assign? {
      G.NextClient(g, g');
    }
  }

  lemma OneClientKept(j: Joint, j': Joint, step: G.Step)
    requires G.Inv(j.manager) && G.NextStep(j.manager, j'.manager, step) && TakesJob(j, j', step)
    requires OneClient(j.manager, j.jobs)
    ensures OneClient(j'.manager, j'.jobs)
  {
    hide G.Inv, G.NextStep, Active;
    forall c, d | Busy(j'.manager, j'.jobs, c) && Busy(j'.manager, j'.jobs, d) && j'.jobs[c] == j'.jobs[d]
      ensures c == d
    {
      StaysActive(j.manager, j'.manager, step, c);
      StaysActive(j.manager, j'.manager, step, d);
    }
  }

  /** A new job changes nothing for those who owe a decrement. */
  lemma NewJob(g: G.State, s: S.State, jobs: Jobs, jobs': Jobs, c: G.ClientId)
    requires Coupled(g, s, jobs) && c in jobs' && jobs' == jobs[c := jobs'[c]]
    requires c in g.clients ==> !G.InDebt(g.clients[c])
    ensures Coupled(g, s, jobs')
  {
    forall t {:trigger s.txns[t]} | t in s.txns && Unfinished(s.txns[t])
      ensures Owed(g, jobs', t, s.txns[t].phase.epoch)
    {
      var d :| Owes(g, jobs, d, t, s.txns[t].phase.epoch);
      assert Owes(g, jobs', d, t, s.txns[t].phase.epoch);
    }
  }

  lemma SameAdvance(s: S.State, s': S.State, e: int)
    requires S.NextStep(s, s', S.Advance(e))
    ensures s' == s.(global := e)
  {
    hide S.OperationStep, S.EndingStep, S.CompactionStep;
    S.StepKind(s, s', S.Advance(e));
  }

  lemma SameRegister(s: S.State, s': S.State, t: TxnId, e: int)
    requires S.NextStep(s, s', S.Register(t, e))
    ensures t in s.txns && s' == S.Registered(s, t, e)
  {
    hide S.OperationStep, S.OutsideStep, S.CompactionStep, S.Registered;
    S.StepKind(s, s', S.Register(t, e));
  }

  lemma SameFinish(s: S.State, s': S.State, t: TxnId)
    requires S.NextStep(s, s', S.Finish(t))
    ensures t in s.txns && s.txns[t].phase.Released? && s' == S.SetPhase(s, t, S.Phase.Finished(s.txns[t].phase.epoch))
  {
    hide S.OperationStep, S.EndingStep, S.CompactionStep, S.SetPhase;
    S.StepKind(s, s', S.Finish(t));
  }

  lemma ManagerKeeps(j: Joint, j': Joint, step: G.Step)
    requires Inv(j) && ManagerStep(j, j', step)
    ensures Coupled(j'.manager, j'.store, j'.jobs)
  {
    hide G.Inv, I.SInv, Coupled, S.NextStep, OneClient, G.ServerStep, G.ClientStep, S.Registered, S.SetPhase;
    var g, g', s, s', jobs := j.manager, j'.manager, j.store, j'.store, j.jobs;
    if step.PopFinished? {
      PopRefines(g, g', s, jobs);
      SameAdvance(s, s', g'.global);
    } else if step.Assign? {
      AssignRefines(g, g', s, jobs);
      SameRegister(s, s', jobs[Front(g)], g.writing);
    } else if step.FetchSub? {
      FinishRefines(g, g', s, jobs, step, step.c);
      SameFinish(s, s', jobs[step.c]);
    } else {
      if G.OfClient(step) {
        QuietClientStep(g, g', s, jobs, step, step.c);
      } else {
        QuietServerStep(g, g', s, jobs, step);
      }
      if step.Load? {
        LoadOwesNothing(g, g', step.c);
        NewJob(g', s, jobs, j'.jobs, step.c);
      }
    }
  }

  lemma LoadOwesNothing(g: G.State, g': G.State, c: G.ClientId)
    requires G.NextStep(g, g', G.Load(c))
    ensures c in g'.clients && !G.InDebt(g'.clients[c])
  {
  }

  lemma ManagerStoreStep(j: Joint, j': Joint, step: G.Step)
    requires Inv(j) && ManagerStep(j, j', step)
    ensures I.SInv(j'.store) && R.EpochsFollow(j.store, j'.store)
  {
    hide G.Inv, I.SInv, Coupled, S.NextStep, OneClient, G.NextStep;
    if step.PopFinished? {
      StoreFollows(j.store, j'.store, S.Advance(j'.manager.global));
    } else if step.Assign? {
      StoreFollows(j.store, j'.store, S.Register(j.jobs[Front(j.manager)], j.manager.writing));
    } else if step.FetchSub? {
      StoreFollows(j.store, j'.store, S.Finish(j.jobs[step.c]));
    }
  }

  lemma StoreFollows(s: S.State, s': S.State, step: S.Step)
    requires I.SInv(s) && S.NextStep(s, s', step)
    ensures I.SInv(s') && R.EpochsFollow(s, s')
  {
    hide I.SInv, S.NextStep, R.EpochsFollow;
    I.NextKeeps(s, s', step);
    R.NextFollows(s, s', step);
  }

  lemma NextKeeps(j: Joint, j': Joint)
    requires Inv(j) && Next(j, j')
    ensures Inv(j') && R.EpochsFollow(j.store, j'.store)
  {
    hide G.Inv, I.SInv, Coupled, S.NextStep, OneClient, R.EpochsFollow, TakesJob, Behaves;
    if step :| ManagerStep(j, j', step) {
      ManagerKeeps(j, j', step);
      ManagerStoreStep(j, j', step);
      OneClientKept(j, j', step);
      assert G.Next(j.manager, j'.manager);
      G.NextKeeps(j.manager, j'.manager);
    } else {
      var step :| StoreStep(j, j', step);
      StoreFollows(j.store, j'.store, step);
      StoreStepsKeep(j.manager, j.store, j'.store, j.jobs, step);
    }
  }

  lemma {:induction false} RunInv(run: seq<Joint>, i: nat)
    requires IsRun(run) && i < |run|
    ensures Inv(run[i])
  {
    hide Inv, Next;
    if i == 0 {
      InitInv(run[0]);
    } else {
      RunInv(run, i - 1);
      assert Next(run[i - 1], run[i]);
      NextKeeps(run[i - 1], run[i]);
    }
  }

  lemma InitInv(j: Joint)
    requires G.Init(j.manager) && S.Init(j.store) && j.store.global == j.manager.global && j.jobs == map[]
    ensures Inv(j)
  {
    hide G.Inv, I.SInv, Coupled;
    G.InitInv(j.manager);
    I.InitInv(j.store);
    InitCoupled(j.manager, j.store);
  }

  // ---------------------------------------------------------------------------
  // What a returned commit is worth.

  lemma NextAwaits(j: Joint, j': Joint, c: G.ClientId, e: int)
    requires Inv(j) && Next(j, j') && (G.AwaitsEpoch(j.manager, c, e) || e <= j.store.global)
    ensures G.AwaitsEpoch(j'.manager, c, e) || e <= j'.store.global
  {
    hide G.Inv, I.SInv, S.NextStep, OneClient, TakesJob, Behaves, G.AwaitsEpoch, G.NextStep;
    NextKeeps(j, j');
    if step :| ManagerStep(j, j', step) {
      if G.AwaitsEpoch(j.manager, c, e) {
        G.StepAwaits(j.manager, j'.manager, step, c, e);
      }
    }
  }

  lemma {:induction false} AwaitsUntil(run: seq<Joint>, i: nat, m: nat, c: G.ClientId, e: int)
    requires IsRun(run) && i <= m < |run| && G.AwaitsEpoch(run[i].manager, c, e)
    ensures G.AwaitsEpoch(run[m].manager, c, e) || e <= run[m].store.global
    decreases m
  {
    hide Inv, Next, G.AwaitsEpoch;
    if i < m {
      AwaitsUntil(run, i, m - 1, c, e);
      RunInv(run, m - 1);
      assert Next(run[m - 1], run[m]);
      NextAwaits(run[m - 1], run[m], c, e);
    }
  }

  lemma Follows(run: seq<Joint>, m: nat)
    requires IsRun(run) && m + 1 < |run|
    ensures R.EpochsFollow(run[m].store, run[m + 1].store)
  {
    hide Inv, Next, R.EpochsFollow;
    RunInv(run, m);
    assert Next(run[m], run[m + 1]);
    NextKeeps(run[m], run[m + 1]);
  }

  lemma {:induction false} EpochStays(run: seq<Joint>, i: nat, l: nat, t: TxnId)
    requires IsRun(run) && i <= l < |run| && t in run[i].store.txns && I.HasEpoch(run[i].store.txns[t].phase)
    ensures t in run[l].store.txns && I.HasEpoch(run[l].store.txns[t].phase)
    ensures run[l].store.txns[t].phase.epoch == run[i].store.txns[t].phase.epoch
    ensures run[i].store.global <= run[l].store.global
    decreases l
  {
    hide IsRun;
    if i < l {
      EpochStays(run, i, l - 1, t);
      Follows(run, l - 1);
      assert run[l - 1].store.txns[t].phase.epoch == run[i].store.txns[t].phase.epoch;
    }
  }

  lemma {:induction false} StoreGrows(run: seq<Joint>, i: nat, l: nat)
    requires IsRun(run) && i <= l < |run|
    ensures run[i].store.global <= run[l].store.global
    decreases l
  {
    hide IsRun;
    if i < l {
      StoreGrows(run, i, l - 1);
      Follows(run, l - 1);
    }
  }

  lemma {:induction false} BeginsCurrent(run: seq<Joint>, i: nat, l: nat, u: TxnId)
    requires IsRun(run) && i <= l < |run| && u !in run[i].store.txns && u in run[l].store.txns
    ensures run[i].store.global <= run[l].store.txns[u].read <= run[l].store.global
    decreases l
  {
    hide IsRun;
    Follows(run, l - 1);
    StoreGrows(run, i, l - 1);
    if u in run[l - 1].store.txns {
      BeginsCurrent(run, i, l - 1, u);
      assert run[l].store.txns[u].read == run[l - 1].store.txns[u].read;
    }
  }

  lemma {:induction false} ReaderBeginsCurrent(run: seq<Joint>, i: nat, l: nat, x: nat)
    requires IsRun(run) && i <= l < |run| && x !in run[i].store.readers && x in run[l].store.readers
    ensures run[i].store.global <= run[l].store.readers[x] <= run[l].store.global
    decreases l
  {
    hide IsRun;
    Follows(run, l - 1);
    StoreGrows(run, i, l - 1);
    if x in run[l - 1].store.readers && run[l].store.readers[x] == run[l - 1].store.readers[x] {
      ReaderBeginsCurrent(run, i, l - 1, x);
    }
  }

  /** The client calls finish_commit and means to wait until its epoch is readable. */
  ghost predicate FinishesAt(run: seq<Joint>, i: nat, c: G.ClientId) {
    i + 1 < |run| && exists x :: ManagerStep(run[i], run[i + 1], G.FetchSub(c, x, true))
  }

  /** The transaction's commit epoch is the one its client waits for. */
  lemma FinishEpoch(j: Joint, j': Joint, c: G.ClientId, x: nat)
    requires Inv(j) && ManagerStep(j, j', G.FetchSub(c, x, true))
    ensures c in j.jobs && j.jobs[c] in j.store.txns && I.HasEpoch(j.store.txns[j.jobs[c]].phase)
    ensures c in j.manager.clients && j.manager.clients[c].epoch == j.store.txns[j.jobs[c]].phase.epoch
    ensures G.AwaitsEpoch(j'.manager, c, j.manager.clients[c].epoch)
  {
    hide G.Inv, I.SInv, S.NextStep;
    G.FetchSubAwaits(j.manager, j'.manager, c, x);
    ReturnedIsActive(j.manager, j'.manager, c, x);
    var t := j.jobs[c];
    assert Unfinished(j.store.txns[t]);
    var d :| Owes(j.manager, j.jobs, d, t, j.store.txns[t].phase.epoch);
    assert Busy(j.manager, j.jobs, d) && Busy(j.manager, j.jobs, c);
    assert d == c;
  }

  lemma ReturnedIsActive(g: G.State, g': G.State, c: G.ClientId, x: nat)
    requires G.NextStep(g, g', G.FetchSub(c, x, true))
    ensures c in g.clients && Active(g.clients[c])
  {
  }

  /** Once commit has returned, whatever begins afterwards, a transaction or a reader, has that
      commit in its snapshot, in every list that it wrote. */
  lemma CommitSeenAfter(run: seq<Joint>, i: nat, m: nat, l: nat, c: G.ClientId, u: TxnId, x: nat, r: int)
    requires IsRun(run) && i < m <= l < |run| && FinishesAt(run, i, c) && c in run[i].jobs
    requires c in run[m].manager.clients && !run[m].manager.clients[c].pc.Counted?
    requires || (u !in run[m].store.txns && u in run[l].store.txns && r == run[l].store.txns[u].read)
             || (x !in run[m].store.readers && x in run[l].store.readers && r == run[l].store.readers[x])
    ensures var t, s := run[i].jobs[c], run[l].store;
      && R.CommittedBy(s, t, r)
      && forall k :: k in s.txns[t].writes && s.txns[t].writes[k] != [] ==> R.PartPresent(s, t, k)
  {
    hide Inv, Next, IsRun, ManagerStep, R.PartPresent, G.AwaitsEpoch;
    var y :| ManagerStep(run[i], run[i + 1], G.FetchSub(c, y, true));
    RunInv(run, i);
    FinishEpoch(run[i], run[i + 1], c, y);
    var t, e := run[i].jobs[c], run[i].manager.clients[c].epoch;
    AwaitsUntil(run, i + 1, m, c, e);
    G.NotAwaiting(run[m].manager, c, e);
    EpochStays(run, i, l, t);
    if u !in run[m].store.txns && u in run[l].store.txns && r == run[l].store.txns[u].read {
      BeginsCurrent(run, m, l, u);
    } else {
      ReaderBeginsCurrent(run, m, l, x);
    }
    RunInv(run, l);
    InvStore(run[l]);
    R.PartsInState(run[l].store, t, r);
  }

  lemma InvStore(j: Joint)
    requires Inv(j)
    ensures I.SInv(j.store)
  {
  }
}
