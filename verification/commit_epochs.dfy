/** The epochs of the store are those of the commit manager: whatever the manager does about
    epochs is a step that the store allows. */
module CommitEpochs {
  import opened Timestamps
  import S = Store
  import G = GroupCommit
  import VersionedList

  /** Which transaction a client of the manager is committing. */
  type Jobs = map<G.ClientId, TxnId>

  /** The server has opened an epoch and not yet given it to anybody. */
  predicate FreshBatch(p: G.Server) {
    p.pc.Assigning? && p.left == p.num
  }

  /** Between its commit epoch and its finish_commit. */
  predicate Unfinished(x: S.Txn) {
    x.phase.Publishing? || x.phase.Released?
  }

  /** Client `c` still owes the decrement for transaction `t` at epoch `e`. */
  ghost predicate Owes(g: G.State, jobs: Jobs, c: G.ClientId, t: TxnId, e: int) {
    c in jobs && jobs[c] == t && c in g.clients && G.InDebt(g.clients[c]) && g.clients[c].epoch == e
  }

  ghost predicate Owed(g: G.State, jobs: Jobs, t: TxnId, e: int) {
    exists c :: Owes(g, jobs, c, t, e)
  }

  ghost predicate Coupled(g: G.State, s: S.State, jobs: Jobs) {
    && s.global == g.global
    && g.writing == s.writing + (if FreshBatch(g.server) then 1 else 0)
    && (g.server.pc.Assigning? ==> 0 < g.server.num)
    && (forall t {:trigger s.txns[t]} :: t in s.txns && Unfinished(s.txns[t]) ==>
          Owed(g, jobs, t, s.txns[t].phase.epoch))
  }

  lemma InitCoupled(g: G.State, s: S.State)
    requires G.Init(g) && S.Init(s) && s.global == g.global
    ensures Coupled(g, s, map[])
  {
  }

  /** The client whose turn it is. */
  function Front(g: G.State): G.ClientId
    requires g.server.q < |g.qs| && g.qs[g.server.q].items != []
  {
    g.qs[g.server.q].items[0]
  }

  /** What the transaction does on its side: it asks for an epoch between two operations, and
      calls finish_commit once its locks are gone. */
  ghost predicate Behaves(g: G.State, g': G.State, s: S.State, jobs: Jobs, step: G.Step) {
    && (step.Assign? ==>
          && g.server.q < |g.qs| && g.qs[g.server.q].items != [] && Front(g) in jobs
          && var t := jobs[Front(g)];
             && t in s.txns && s.txns[t].phase.Running? && g.writing < LAST_EPOCH
             && S.BetweenOperations(s, t))
    && (step.FetchSub? ==>
          step.c in jobs && jobs[step.c] in s.txns && s.txns[jobs[step.c]].phase.Released?)
  }

  lemma PopRefines(g: G.State, g': G.State, s: S.State, jobs: Jobs)
    requires G.Inv(g) && Coupled(g, s, jobs) && G.Wf(g) && G.ServerStep(g, g', G.PopFinished)
    ensures S.NextStep(s, s.(global := g'.global), S.Advance(g'.global)) && Coupled(g', s.(global := g'.global), jobs)
  {
    hide G.QueuesOk;
    G.PopKeeps(g, g');
    forall t {:trigger s.txns[t]} | t in s.txns && Unfinished(s.txns[t])
      ensures g'.global < s.txns[t].phase.epoch && Owed(g', jobs, t, s.txns[t].phase.epoch)
    {
      var c :| Owes(g, jobs, c, t, s.txns[t].phase.epoch);
      assert Owes(g', jobs, c, t, s.txns[t].phase.epoch);
      assert G.Queued(g'.unfinished, g'.clients[c].epoch);
    }
  }

  lemma RegisterAllowed(s: S.State, t: TxnId, e: int)
    requires t in s.txns && s.txns[t].phase.Running? && s.global < e < LAST_EPOCH && s.writing <= e <= s.writing + 1
    requires S.BetweenOperations(s, t)
    ensures S.NextStep(s, S.Registered(s, t, e), S.Register(t, e))
  {
  }

  lemma AssignBounds(g: G.State, g': G.State)
    requires G.Inv(g) && G.ServerStep(g, g', G.Assign)
    ensures 0 <= g.writing && g.server.left <= g.server.num
  {
    assert G.ServerOk(g.server, g.qs[g.server.q]);
  }

  lemma AssignRefines(g: G.State, g': G.State, s: S.State, jobs: Jobs)
    requires G.Inv(g) && Coupled(g, s, jobs) && G.ServerStep(g, g', G.Assign) && Behaves(g, g', s, jobs, G.Assign)
    ensures var t := jobs[Front(g)];
      && S.NextStep(s, S.Registered(s, t, g.writing), S.Register(t, g.writing))
      && Coupled(g', S.Registered(s, t, g.writing), jobs)
  {
    hide G.QueuesOk, G.CountersOk, G.DebtsQueued, G.Returns, S.NextStep;
    var c := Front(g);
    var t := jobs[c];
    AssignBounds(g, g');
    G.AssignKeeps(g, g');
    G.NextClient(g, g');
    RegisterAllowed(s, t, g.writing);
    var s' := S.Registered(s, t, g.writing);
    forall u {:trigger s'.txns[u]} | u in s'.txns && Unfinished(s'.txns[u])
      ensures Owed(g', jobs, u, s'.txns[u].phase.epoch)
    {
      if u == t {
        assert Owes(g', jobs, c, t, g.writing);
      } else {
        var d :| Owes(g, jobs, d, u, s.txns[u].phase.epoch);
        assert Owes(g', jobs, d, u, s.txns[u].phase.epoch);
      }
    }
  }

  lemma FinishRefines(g: G.State, g': G.State, s: S.State, jobs: Jobs, step: G.Step, c: G.ClientId)
    requires G.Wf(g) && Coupled(g, s, jobs) && G.ClientStep(g, g', step, c) && step.FetchSub? && step.c == c
    requires Behaves(g, g', s, jobs, step)
    ensures var t := jobs[c];
      var s' := S.SetPhase(s, t, S.Phase.Finished(s.txns[t].phase.epoch));
      S.NextStep(s, s', S.Finish(t)) && Coupled(g', s', jobs)
  {
    var t := jobs[c];
    var s' := S.SetPhase(s, t, S.Phase.Finished(s.txns[t].phase.epoch));
    forall u {:trigger s'.txns[u]} | u in s'.txns && Unfinished(s'.txns[u])
      ensures Owed(g', jobs, u, s'.txns[u].phase.epoch)
    {
      var d :| Owes(g, jobs, d, u, s.txns[u].phase.epoch);
      assert Owes(g', jobs, d, u, s.txns[u].phase.epoch);
    }
  }

  /** Nothing else that the manager does is about epochs. */
  lemma QuietClientStep(g: G.State, g': G.State, s: S.State, jobs: Jobs, step: G.Step, c: G.ClientId)
    requires G.Inv(g) && Coupled(g, s, jobs) && G.ClientStep(g, g', step, c) && !step.FetchSub?
    ensures Coupled(g', s, jobs)
  {
    hide G.QueuesOk, G.CountersOk, G.DebtsQueued;
    forall t {:trigger s.txns[t]} | t in s.txns && Unfinished(s.txns[t])
      ensures Owed(g', jobs, t, s.txns[t].phase.epoch)
    {
      var d :| Owes(g, jobs, d, t, s.txns[t].phase.epoch);
      assert Owes(g', jobs, d, t, s.txns[t].phase.epoch);
    }
  }

  lemma QuietServerStep(g: G.State, g': G.State, s: S.State, jobs: Jobs, step: G.Step)
    requires G.Inv(g) && Coupled(g, s, jobs) && G.ServerStep(g, g', step) && !step.PopFinished? && !step.Assign?
    ensures Coupled(g', s, jobs)
  {
    hide G.QueuesOk, G.CountersOk, G.DebtsQueued;
    forall t {:trigger s.txns[t]} | t in s.txns && Unfinished(s.txns[t])
      ensures Owed(g', jobs, t, s.txns[t].phase.epoch)
    {
      var d :| Owes(g, jobs, d, t, s.txns[t].phase.epoch);
      assert Owes(g', jobs, d, t, s.txns[t].phase.epoch);
    }
  }

  /** Every step of the commit manager is a step of the store or nothing to it: handing out an
      epoch is Register, a decrement is Finish, and popping a finished epoch is Advance, each
      with its guard met. */
  lemma ManagerRefines(g: G.State, g': G.State, s: S.State, jobs: Jobs, step: G.Step) returns (s': S.State)
    requires G.Inv(g) && G.NextStep(g, g', step) && Coupled(g, s, jobs) && Behaves(g, g', s, jobs, step)
    ensures Coupled(g', s', jobs)
    ensures match step
      case PopFinished => S.NextStep(s, s', S.Advance(g'.global))
      case Assign => S.NextStep(s, s', S.Register(jobs[Front(g)], g.writing))
      case FetchSub(c, _, _) => S.NextStep(s, s', S.Finish(jobs[c]))
      case _ => s' == s
  {
    hide G.Inv, Coupled, S.NextStep;
    if step.PopFinished? {
      s' := s.(global := g'.global);
      PopRefines(g, g', s, jobs);
    } else if step.Assign? {
      s' := S.Registered(s, jobs[Front(g)], g.writing);
      AssignRefines(g, g', s, jobs);
    } else if step.FetchSub? {
      var t := jobs[step.c];
      s' := S.SetPhase(s, t, S.Phase.Finished(s.txns[t].phase.epoch));
      FinishRefines(g, g', s, jobs, step, step.c);
    } else {
      s' := s;
      if G.OfClient(step) {
        QuietClientStep(g, g', s, jobs, step, step.c);
      } else {
        QuietServerStep(g, g', s, jobs, step);
      }
    }
  }

  lemma SameEpochsCoupled(g: G.State, s: S.State, s': S.State, jobs: Jobs)
    requires Coupled(g, s, jobs) && s'.global == s.global && s'.writing == s.writing
    requires forall t {:trigger s'.txns[t]} :: t in s'.txns && Unfinished(s'.txns[t]) ==>
      t in s.txns && Unfinished(s.txns[t]) && s.txns[t].phase.epoch == s'.txns[t].phase.epoch
    ensures Coupled(g, s', jobs)
  {
  }

  lemma OutsideKeeps(g: G.State, s: S.State, s': S.State, jobs: Jobs, step: S.Step)
    requires Coupled(g, s, jobs) && S.OutsideStep(s, s', step) && !step.Advance?
    ensures Coupled(g, s', jobs)
  {
    SameEpochsCoupled(g, s, s', jobs);
  }

  lemma EndingKeeps(g: G.State, s: S.State, s': S.State, jobs: Jobs, step: S.Step)
    requires Coupled(g, s, jobs) && S.EndingStep(s, s', step) && !step.Register?
    ensures Coupled(g, s', jobs)
  {
    SameEpochsCoupled(g, s, s', jobs);
  }

  lemma OperationKeeps(g: G.State, s: S.State, s': S.State, jobs: Jobs, step: S.Step)
    requires Coupled(g, s, jobs) && (S.OperationStep(s, s', step) || S.CompactionStep(s, s', step))
    ensures Coupled(g, s', jobs)
  {
    SameEpochsCoupled(g, s, s', jobs);
  }

  /** What the transactions do between Register and Finish does not concern the manager. */
  lemma StoreStepsKeep(g: G.State, s: S.State, s': S.State, jobs: Jobs, step: S.Step)
    requires Coupled(g, s, jobs) && S.NextStep(s, s', step) && !step.Register? && !step.Advance?
    ensures Coupled(g, s', jobs)
  {
    hide Coupled, S.OutsideStep, S.OperationStep, S.EndingStep, S.CompactionStep;
    if S.OutsideStep(s, s', step) {
      OutsideKeeps(g, s, s', jobs, step);
    } else if S.EndingStep(s, s', step) {
      EndingKeeps(g, s, s', jobs, step);
    } else {
      OperationKeeps(g, s, s', jobs, step);
    }
  }
}
