/** The vertex lock: a futex word, a count of the threads using it, and the kernel's queue of
    sleepers, as an interleaving of single atomic operations of any number of threads. */
module Futex {
  type ThreadId = nat

  /** Why FUTEX_WAIT came back: woken or the word had changed; timed out; any other error. */
  datatype Outcome = Again | TimedOut | Failed

  /** Where a thread is in lock, try_lock_for or unlock:
      outside; in the retry loop before the increment; before the compare-and-swap; before
      FUTEX_WAIT; asleep in it; back from it, before the decrement; has the lock; has cleared
      the word, before the decrement; has found other users, before FUTEX_WAKE. */
  datatype Pc =
    | Out | Retrying | Entering | Blocked | Asleep | Back(why: Outcome)
    | Holding | Releasing | Waking

  /** What the last call of lock or try_lock_for has come back with: nothing yet; the lock, which
      is true for try_lock_for; false; an exception. */
  datatype Answer = None | Locked | NotLocked | Error

  /** `timed` marks a call of try_lock_for, whose wait can time out. */
  datatype Thread = Thread(pc: Pc, timed: bool, answer: Answer)

  datatype State = State(futexp: int, numUsing: int, threads: map<ThreadId, Thread>)

  datatype Step =
    | Call(t: ThreadId, timed: bool) | Increment(t: ThreadId) | Cas(t: ThreadId) | Wait(t: ThreadId)
    | Spurious(t: ThreadId) | Timeout(t: ThreadId) | Interrupt(t: ThreadId) | Decrement(t: ThreadId)
    | Clear(t: ThreadId) | Leave(t: ThreadId) | Wake(t: ThreadId, woken: ThreadId) | WakeNobody(t: ThreadId)

  predicate At(s: State, t: ThreadId, pc: Pc) {
    t in s.threads && s.threads[t].pc == pc
  }

  function Goto(s: State, t: ThreadId, pc: Pc): State
    requires t in s.threads
  {
    s.(threads := s.threads[t := s.threads[t].(pc := pc)])
  }

  /** The call comes back. */
  function Answered(s: State, t: ThreadId, pc: Pc, answer: Answer): State
    requires t in s.threads
  {
    s.(threads := s.threads[t := s.threads[t].(pc := pc, answer := answer)])
  }

  ghost predicate NextStep(s: State, s': State, step: Step) {
    match step
    case Call(t, timed) =>
      At(s, t, Out) && s' == s.(threads := s.threads[t := Thread(Retrying, timed, None)])
    case Increment(t) =>
      At(s, t, Retrying) && s' == Goto(s, t, Entering).(numUsing := s.numUsing + 1)
    case Cas(t) =>
      && At(s, t, Entering)
      && s' == if s.futexp == 0 then Answered(s, t, Holding, Locked).(futexp := 1) else Goto(s, t, Blocked)
    case Wait(t) =>
      At(s, t, Blocked) && s' == Goto(s, t, if s.futexp == 1 then Asleep else Back(Again))
    case Spurious(t) =>
      At(s, t, Asleep) && s' == Goto(s, t, Back(Again))
    case Timeout(t) =>
      At(s, t, Asleep) && s.threads[t].timed && s' == Goto(s, t, Back(TimedOut))
    case Interrupt(t) =>
      At(s, t, Asleep) && s' == Goto(s, t, Back(Failed))
    case Decrement(t) =>
      && t in s.threads && s.threads[t].pc.Back?
      && s' == (match s.threads[t].pc.why
                case Again => Goto(s, t, Retrying)
                case TimedOut => Answered(s, t, Out, NotLocked)
                case Failed => Answered(s, t, Out, Error)).(numUsing := s.numUsing - 1)
    case Clear(t) =>
      At(s, t, Holding) && s' == if s.futexp == 1 then Goto(s, t, Releasing).(futexp := 0) else Goto(s, t, Out)
    case Leave(t) =>
      && At(s, t, Releasing)
      && s' == Goto(s, t, if s.numUsing - 1 == 0 then Out else Waking).(numUsing := s.numUsing - 1)
    case Wake(t, woken) =>
      && At(s, t, Waking) && At(s, woken, Asleep)
      && s' == Goto(Goto(s, t, Out), woken, Back(Again))
    case WakeNobody(t) =>
      && At(s, t, Waking) && (forall u :: !At(s, u, Asleep))
      && s' == Goto(s, t, Out)
  }

  ghost predicate Next(s: State, s': State) {
    exists step :: NextStep(s, s', step)
  }

  predicate Init(s: State) {
    s.futexp == 0 && s.numUsing == 0 && forall t :: t in s.threads ==> s.threads[t].pc == Out
  }

  ghost predicate IsRun(run: seq<State>) {
    && run != []
    && Init(run[0])
    && (forall i :: 0 <= i < |run| - 1 ==> Next(run[i], run[i + 1]))
  }

  /** Incremented num_using and has yet to decrement it. */
  predicate Counted(pc: Pc) {
    pc.Entering? || pc.Blocked? || pc.Asleep? || pc.Back? || pc.Holding? || pc.Releasing?
  }

  function Users(s: State): set<ThreadId> {
    set t | t in s.threads && Counted(s.threads[t].pc)
  }

  /** Mid-unlock, or awake and certain to try the compare-and-swap again. */
  predicate Helps(pc: Pc) {
    pc.Releasing? || pc.Waking? || pc.Retrying? || pc.Entering? || pc.Blocked? || pc == Back(Again)
  }

  ghost predicate Helped(s: State) {
    exists u :: u in s.threads && Helps(s.threads[u].pc)
  }

  ghost predicate MutexOk(s: State) {
    && (s.futexp == 0 || s.futexp == 1)
    && (forall t {:trigger s.threads[t]} :: t in s.threads && s.threads[t].pc.Holding? ==> s.futexp == 1)
    && (forall t, u {:trigger s.threads[t], s.threads[u]} ::
          t in s.threads && u in s.threads && s.threads[t].pc.Holding? && s.threads[u].pc.Holding? ==> t == u)
    && (s.futexp == 1 ==> exists t :: At(s, t, Holding))
  }

  ghost predicate CountOk(s: State) {
    s.numUsing == |Users(s)|
  }

  ghost predicate NoLostWakeup(s: State) {
    forall t :: s.futexp == 0 && At(s, t, Asleep) ==> Helped(s)
  }

  ghost predicate Inv(s: State) {
    MutexOk(s) && CountOk(s) && NoLostWakeup(s)
  }

  /** One thread moves and perhaps changes sides in the count. */
  lemma CountKeeps(s: State, s': State, t: ThreadId)
    requires CountOk(s) && t in s.threads && t in s'.threads
    requires s'.threads == s.threads[t := s'.threads[t]]
    requires s'.numUsing - s.numUsing
          == (if Counted(s'.threads[t].pc) then 1 else 0) - (if Counted(s.threads[t].pc) then 1 else 0)
    ensures CountOk(s')
  {
    if Counted(s'.threads[t].pc) {
      assert Users(s') == Users(s) + {t};
    } else {
      assert Users(s') == Users(s) - {t};
    }
  }

  lemma WakeCount(s: State, s': State, t: ThreadId, woken: ThreadId)
    requires CountOk(s) && NextStep(s, s', Wake(t, woken))
    ensures CountOk(s')
  {
    CountKeeps(s, Goto(s, t, Out), t);
    CountKeeps(Goto(s, t, Out), s', woken);
  }

  lemma StepCount(s: State, s': State, step: Step)
    requires Inv(s) && NextStep(s, s', step)
    ensures CountOk(s')
  {
    hide CountOk, NoLostWakeup;
    if step.Wake? {
      WakeCount(s, s', step.t, step.woken);
    } else {
      CountKeeps(s, s', step.t);
    }
  }

  /** The only steps on the word: taking it when it is 0 and clearing it as its holder. */
  lemma StepMutex(s: State, s': State, step: Step)
    requires MutexOk(s) && NextStep(s, s', step)
    ensures MutexOk(s')
  {
    if s'.futexp == 1 {
      StepHolder(s, s', step);
    }
  }

  /** While the word is 1 somebody holds the lock: whoever took it, or the old holder. */
  lemma StepHolder(s: State, s': State, step: Step)
    requires MutexOk(s) && NextStep(s, s', step) && s'.futexp == 1
    ensures exists t :: At(s', t, Holding)
  {
    if step.Cas? && s.futexp == 0 {
      assert At(s', step.t, Holding);
    } else {
      var h :| At(s, h, Holding);
      assert At(s', h, Holding);
    }
  }

  /** A helper stays one until somebody takes the lock or no sleeper is left behind. */
  lemma StepWakeup(s: State, s': State, step: Step)
    requires Inv(s) && NextStep(s, s', step)
    ensures NoLostWakeup(s')
  {
    forall t | s'.futexp == 0 && At(s', t, Asleep)
      ensures Helped(s')
    {
      if s.futexp == 1 {
        assert Helps(s'.threads[step.t].pc);
      } else {
        assert At(s, t, Asleep) && Helped(s);
        if step.Wake? {
          assert Helps(s'.threads[step.woken].pc);
        } else if step.Leave? {
          assert t in Users(s) && step.t in Users(s);
          assert {t, step.t} <= Users(s);
          assert |{t, step.t}| == 2;
          TwoUsers(Users(s), t, step.t);
          assert Helps(s'.threads[step.t].pc);
        } else {
          var h :| h in s.threads && Helps(s.threads[h].pc);
          assert h in s'.threads && Helps(s'.threads[h].pc);
        }
      }
    }
  }

  lemma TwoUsers(users: set<ThreadId>, t: ThreadId, u: ThreadId)
    requires t in users && u in users && t != u
    ensures 2 <= |users|
  {
    assert users == {t} + (users - {t});
    assert u in users - {t};
  }

  lemma {:induction false} RunInv(run: seq<State>, i: nat)
    requires IsRun(run) && i < |run|
    ensures Inv(run[i])
  {
    if i == 0 {
      assert Users(run[0]) == {};
    } else {
      RunInv(run, i - 1);
      var s, s' := run[i - 1], run[i];
      assert Next(s, s');
      var step :| NextStep(s, s', step);
      StepMutex(s, s', step);
      StepCount(s, s', step);
      StepWakeup(s, s', step);
    }
  }

  /** At most one thread holds the lock, and it does exactly while the word is 1. */
  lemma MutualExclusion(run: seq<State>, i: nat, t: ThreadId, u: ThreadId)
    requires IsRun(run) && i < |run|
    ensures At(run[i], t, Holding) && At(run[i], u, Holding) ==> t == u
    ensures run[i].futexp == 1 <==> exists h :: At(run[i], h, Holding)
    ensures run[i].futexp == 0 || run[i].futexp == 1
  {
    RunInv(run, i);
  }

  lemma UsersCounted(run: seq<State>, i: nat)
    requires IsRun(run) && i < |run|
    ensures run[i].numUsing == |Users(run[i])|
  {
    RunInv(run, i);
  }

  /** No wake-up is lost: while the lock is free and `t` sleeps, another thread is on its way
      to wake somebody up or to take the lock.  Hence, once every thread is outside, asleep
      or holding the lock, sleepers only wait for a holder. */
  lemma WakeupNotLost(run: seq<State>, i: nat, t: ThreadId)
    requires IsRun(run) && i < |run| && At(run[i], t, Asleep)
    ensures run[i].futexp == 0 ==> exists u :: u != t && u in run[i].threads && Helps(run[i].threads[u].pc)
    ensures (forall u :: u in run[i].threads ==>
               run[i].threads[u].pc.Out? || run[i].threads[u].pc.Asleep? || run[i].threads[u].pc.Holding?)
            ==> exists h :: At(run[i], h, Holding)
  {
    RunInv(run, i);
    if run[i].futexp == 0 {
      assert Helped(run[i]);
      var u :| u in run[i].threads && Helps(run[i].threads[u].pc);
      assert u != t;
    }
  }

  /** How many steps of its own a helper is away from taking the lock, or from waking a
      thread that then takes it. */
  ghost function Rank(pc: Pc): nat {
    match pc
    case Entering => 1
    case Retrying => 2
    case Back(_) => 3
    case Blocked => 4
    case Waking => 5
    case Releasing => 6
    case _ => 0
  }

  /** `steps` lead from each state of `path` to the next. */
  ghost predicate IsPath(path: seq<State>, steps: seq<Step>) {
    && |path| == |steps| + 1
    && forall i {:trigger steps[i]} :: 0 <= i < |steps| ==> NextStep(path[i], path[i + 1], steps[i])
  }

  /** Nobody moves but `u` and, once `u` has woken it, `sleeper`; and neither comes from outside. */
  ghost predicate OwnSteps(steps: seq<Step>, u: ThreadId, sleeper: ThreadId) {
    forall i {:trigger steps[i]} :: 0 <= i < |steps| ==>
      && !steps[i].Call?
      && (steps[i].t == u || (steps[i].t == sleeper && exists h :: 0 <= h < i && steps[h] == Wake(u, sleeper)))
  }

  lemma PathCons(s: State, step: Step, path: seq<State>, steps: seq<Step>)
    requires IsPath(path, steps) && NextStep(s, path[0], step)
    ensures IsPath([s] + path, [step] + steps)
  {
    var longer, all := [s] + path, [step] + steps;
    forall i {:trigger all[i]} | 0 <= i < |all|
      ensures NextStep(longer[i], longer[i + 1], all[i])
    {
      assert i > 0 ==> all[i] == steps[i - 1];
    }
  }

  lemma StepsCons(step: Step, steps: seq<Step>, u: ThreadId, v: ThreadId, sleeper: ThreadId)
    requires OwnSteps(steps, v, sleeper) && step.t == u && !step.Call?
    requires v == u || (v == sleeper && step == Wake(u, sleeper))
    ensures OwnSteps([step] + steps, u, sleeper)
  {
    var all := [step] + steps;
    forall i {:trigger all[i]} | 0 <= i < |all|
      ensures !all[i].Call?
      ensures all[i].t == u || (all[i].t == sleeper && exists h :: 0 <= h < i && all[h] == Wake(u, sleeper))
    {
      if i > 0 {
        assert all[i] == steps[i - 1];
        if v != u {
          assert all[0] == Wake(u, sleeper);
        } else if h :| 0 <= h < i - 1 && steps[h] == Wake(u, sleeper) {
          assert all[h + 1] == Wake(u, sleeper);
        }
      }
    }
  }

  /** What a helper is good for: while the lock is free and somebody sleeps, its own steps and
      those of the sleeper, once it has woken it, lead to the lock being taken, in at most six
      steps and without anybody else. */
  lemma {:induction false} HelperSucceeds(s: State, u: ThreadId, sleeper: ThreadId)
    returns (path: seq<State>, steps: seq<Step>)
    requires Inv(s) && s.futexp == 0 && At(s, sleeper, Asleep)
    requires u in s.threads && Helps(s.threads[u].pc)
    ensures IsPath(path, steps) && path[0] == s && |steps| <= Rank(s.threads[u].pc)
    ensures OwnSteps(steps, u, sleeper)
    ensures path[|steps|].futexp == 1
    decreases Rank(s.threads[u].pc)
  {
    hide Inv, NextStep, IsPath, OwnSteps;
    var pc := s.threads[u].pc;
    if pc.Waking? {
      var s' := Goto(Goto(s, u, Out), sleeper, Back(Again));
      assert NextStep(s, s', Wake(u, sleeper)) by { WakeStep(s, u, sleeper); }
      path, steps := Retry(s', sleeper, sleeper);
      PathCons(s, Wake(u, sleeper), path, steps);
      StepsCons(Wake(u, sleeper), steps, u, sleeper, sleeper);
      path, steps := [s] + path, [Wake(u, sleeper)] + steps;
    } else if pc.Releasing? {
      var s' := LeaveStep(s, u, sleeper);
      path, steps := HelperSucceeds(s', u, sleeper);
      PathCons(s, Leave(u), path, steps);
      StepsCons(Leave(u), steps, u, u, sleeper);
      path, steps := [s] + path, [Leave(u)] + steps;
    } else {
      path, steps := Retry(s, u, sleeper);
    }
  }

  lemma WakeStep(s: State, u: ThreadId, sleeper: ThreadId)
    requires At(s, u, Waking) && At(s, sleeper, Asleep)
    ensures NextStep(s, Goto(Goto(s, u, Out), sleeper, Back(Again)), Wake(u, sleeper))
  {
  }

  /** With a sleeper counted in, the leaving thread goes on to wake somebody. */
  lemma LeaveStep(s: State, u: ThreadId, sleeper: ThreadId) returns (s': State)
    requires Inv(s) && s.futexp == 0 && At(s, sleeper, Asleep) && At(s, u, Releasing)
    ensures NextStep(s, s', Leave(u)) && Inv(s') && s'.futexp == 0 && At(s', sleeper, Asleep) && At(s', u, Waking)
  {
    assert u in Users(s) && sleeper in Users(s);
    TwoUsers(Users(s), u, sleeper);
    s' := Goto(s, u, Waking).(numUsing := s.numUsing - 1);
    assert NextStep(s, s', Leave(u));
    StepMutex(s, s', Leave(u));
    StepCount(s, s', Leave(u));
    StepWakeup(s, s', Leave(u));
  }

  lemma {:induction false} Retry(s: State, u: ThreadId, sleeper: ThreadId) returns (path: seq<State>, steps: seq<Step>)
    requires s.futexp == 0 && u in s.threads
    requires Helps(s.threads[u].pc) && !s.threads[u].pc.Waking? && !s.threads[u].pc.Releasing?
    ensures IsPath(path, steps) && path[0] == s && |steps| <= Rank(s.threads[u].pc)
    ensures OwnSteps(steps, u, sleeper)
    ensures path[|steps|].futexp == 1
    decreases Rank(s.threads[u].pc)
  {
    var pc := s.threads[u].pc;
    if pc.Entering? {
      var s' := Answered(s, u, Holding, Locked).(futexp := 1);
      assert NextStep(s, s', Cas(u));
      path, steps := [s, s'], [Cas(u)];
    } else {
      var step := if pc.Retrying? then Increment(u) else if pc.Blocked? then Wait(u) else Decrement(u);
      var s' := if pc.Retrying? then Goto(s, u, Entering).(numUsing := s.numUsing + 1)
                else if pc.Blocked? then Goto(s, u, Back(Again))
                else Goto(s, u, Retrying).(numUsing := s.numUsing - 1);
      assert NextStep(s, s', step);
      path, steps := Retry(s', u, sleeper);
      PathCons(s, step, path, steps);
      StepsCons(step, steps, u, u, sleeper);
      path, steps := [s] + path, [step] + steps;
    }
  }

  // ---------------------------------------------------------------------------
  // What a call comes back with.

  /** In the loop of lock or try_lock_for. */
  predicate InCall(pc: Pc) {
    pc.Retrying? || pc.Entering? || pc.Blocked? || pc.Asleep? || pc.Back?
  }

  ghost predicate StepAt(run: seq<State>, m: nat, step: Step) {
    m + 1 < |run| && NextStep(run[m], run[m + 1], step)
  }

  /** The thread's wait ran out at some step of `run` from `i` up to `j`. */
  ghost predicate TimesOut(run: seq<State>, i: nat, j: nat, t: ThreadId) {
    exists m: nat :: i <= m < j && StepAt(run, m, Timeout(t))
  }

  ghost predicate Fails(run: seq<State>, i: nat, j: nat, t: ThreadId) {
    exists m: nat :: i <= m < j && StepAt(run, m, Interrupt(t))
  }

  /** Nobody else changes where a thread is, but for waking it up. */
  lemma OthersStep(s: State, s': State, step: Step, t: ThreadId)
    requires NextStep(s, s', step) && t in s.threads && step.t != t
    ensures t in s'.threads
    ensures s'.threads[t] == if step.Wake? && step.woken == t then s.threads[t].(pc := Back(Again)) else s.threads[t]
    ensures step.Wake? && step.woken == t ==> s.threads[t].pc.Asleep?
  {
  }

  /** What the calling thread does next, and with which answer it leaves the loop. */
  lemma OwnStep(s: State, s': State, step: Step, t: ThreadId)
    requires NextStep(s, s', step) && step.t == t && t in s.threads && InCall(s.threads[t].pc)
    ensures t in s'.threads && s'.threads[t].timed == s.threads[t].timed
    ensures InCall(s'.threads[t].pc) ==> s'.threads[t].answer == s.threads[t].answer
    ensures !InCall(s'.threads[t].pc) ==>
      || (s'.threads[t].pc.Holding? && s'.threads[t].answer == Locked && s.threads[t].pc.Entering?)
      || (s'.threads[t].pc.Out? && s'.threads[t].answer == NotLocked && s.threads[t].pc == Back(TimedOut))
      || (s'.threads[t].pc.Out? && s'.threads[t].answer == Error && s.threads[t].pc == Back(Failed))
    ensures s'.threads[t].pc == Back(TimedOut) ==> NextStep(s, s', Timeout(t)) && s.threads[t].timed
    ensures s'.threads[t].pc == Back(Failed) ==> NextStep(s, s', Interrupt(t))
    ensures s.threads[t].pc == Back(TimedOut) ==> s'.threads[t].pc.Out?
    ensures s.threads[t].pc == Back(Failed) ==> s'.threads[t].pc.Out?
  {
  }

  /** A wait that runs out or fails leaves its mark. */
  lemma TimeoutMarks(s: State, s': State, t: ThreadId)
    ensures NextStep(s, s', Timeout(t)) ==> t in s'.threads && s'.threads[t].pc == Back(TimedOut)
    ensures NextStep(s, s', Interrupt(t)) ==> t in s'.threads && s'.threads[t].pc == Back(Failed)
  {
  }

  /** Up to `j` the call has not come back. */
  ghost predicate Calling(run: seq<State>, i: nat, j: nat, t: ThreadId, timed: bool)
    requires j < |run|
  {
    && StepAt(run, i, Call(t, timed))
    && forall m {:trigger run[m]} :: i < m <= j ==> t in run[m].threads && InCall(run[m].threads[t].pc)
  }

  /** The state of a call under way tells whether its wait has run out or failed. */
  lemma {:induction false} CallState(run: seq<State>, i: nat, j: nat, t: ThreadId, timed: bool)
    requires IsRun(run) && i < j < |run| && Calling(run, i, j, t, timed)
    ensures run[j].threads[t].timed == timed && run[j].threads[t].answer == None
    ensures TimesOut(run, i + 1, j, t) <==> run[j].threads[t].pc == Back(TimedOut)
    ensures Fails(run, i + 1, j, t) <==> run[j].threads[t].pc == Back(Failed)
    ensures TimesOut(run, i + 1, j, t) ==> timed
    decreases j
  {
    hide NextStep, TimesOut, Fails, IsRun, StepAt, InCall;
    if j == i + 1 {
      CallStart(run, i, t, timed);
    } else {
      var m := j - 1;
      assert Calling(run, i, m, t, timed);
      CallState(run, i, m, t, timed);
      CallNext(run, i, m, t, timed);
    }
  }

  lemma CallStart(run: seq<State>, i: nat, t: ThreadId, timed: bool)
    requires StepAt(run, i, Call(t, timed))
    ensures t in run[i + 1].threads && run[i + 1].threads[t] == Thread(Retrying, timed, None)
    ensures !TimesOut(run, i + 1, i + 1, t) && !Fails(run, i + 1, i + 1, t)
  {
  }

  lemma CallNext(run: seq<State>, i: nat, m: nat, t: ThreadId, timed: bool)
    requires IsRun(run) && i < m && m + 1 < |run| && Calling(run, i, m + 1, t, timed)
    requires run[m].threads[t].timed == timed && run[m].threads[t].answer == None
    requires TimesOut(run, i + 1, m, t) <==> run[m].threads[t].pc == Back(TimedOut)
    requires Fails(run, i + 1, m, t) <==> run[m].threads[t].pc == Back(Failed)
    requires TimesOut(run, i + 1, m, t) ==> timed
    ensures run[m + 1].threads[t].timed == timed && run[m + 1].threads[t].answer == None
    ensures TimesOut(run, i + 1, m + 1, t) <==> run[m + 1].threads[t].pc == Back(TimedOut)
    ensures Fails(run, i + 1, m + 1, t) <==> run[m + 1].threads[t].pc == Back(Failed)
    ensures TimesOut(run, i + 1, m + 1, t) ==> timed
  {
    hide NextStep, TimesOut, Fails;
    var s, s' := run[m], run[m + 1];
    assert Next(s, s');
    var step := SomeStep(s, s');
    if step.t == t {
      OwnStep(s, s', step, t);
    } else {
      OthersStep(s, s', step, t);
    }
    TimeoutMarks(s, s', t);
    MoreTimes(run, i + 1, m, t);
    assert s.threads[t].pc == s'.threads[t].pc || s'.threads[t].pc != Back(TimedOut) || NextStep(s, s', Timeout(t));
  }

  lemma SomeStep(s: State, s': State) returns (step: Step)
    requires Next(s, s')
    ensures NextStep(s, s', step)
  {
    step :| NextStep(s, s', step);
  }

  lemma MoreTimes(run: seq<State>, i: nat, m: nat, t: ThreadId)
    requires i <= m && m + 1 < |run|
    ensures TimesOut(run, i, m + 1, t) <==> TimesOut(run, i, m, t) || NextStep(run[m], run[m + 1], Timeout(t))
    ensures Fails(run, i, m + 1, t) <==> Fails(run, i, m, t) || NextStep(run[m], run[m + 1], Interrupt(t))
  {
    hide NextStep;
    assert StepAt(run, m, Timeout(t)) <==> NextStep(run[m], run[m + 1], Timeout(t));
    assert StepAt(run, m, Interrupt(t)) <==> NextStep(run[m], run[m + 1], Interrupt(t));
  }

  /** The answers, over all runs: a call comes back with the lock exactly when it holds it, with
      false exactly when its wait has run out, which lock never does, and with an exception
      exactly when the wait has failed. */
  lemma CallAnswers(run: seq<State>, i: nat, j: nat, t: ThreadId, timed: bool)
    requires IsRun(run) && i < j && j + 1 < |run| && Calling(run, i, j, t, timed)
    requires t in run[j + 1].threads && !InCall(run[j + 1].threads[t].pc)
    ensures var x := run[j + 1].threads[t];
      && (x.pc.Holding? || x.pc.Out?)
      && (x.answer == Locked <==> x.pc.Holding?)
      && (x.answer == NotLocked <==> TimesOut(run, i + 1, j, t))
      && (x.answer == Error <==> Fails(run, i + 1, j, t))
      && (x.answer == NotLocked ==> timed) && x.answer != None
  {
    hide NextStep, TimesOut, Fails;
    CallState(run, i, j, t, timed);
    assert Next(run[j], run[j + 1]);
    var step := SomeStep(run[j], run[j + 1]);
    if step.t == t {
      OwnStep(run[j], run[j + 1], step, t);
    } else {
      OthersStep(run[j], run[j + 1], step, t);
    }
  }

  /** After a time-out the thread does not try again: until its next call it only leaves. */
  lemma {:induction false} NoRetryAfterTimeout(run: seq<State>, i: nat, j: nat, t: ThreadId)
    requires IsRun(run) && i < j < |run| && StepAt(run, i, Timeout(t))
    requires forall m: nat, timed :: i < m < j ==> !StepAt(run, m, Call(t, timed))
    ensures GaveUp(run[j], t)
    ensures j + 1 < |run| ==> !StepAt(run, j, Increment(t)) && !StepAt(run, j, Cas(t))
    decreases j
  {
    hide NextStep, IsRun, GaveUp;
    if i + 1 == j {
      TimeoutGivesUp(run[i], run[j], t);
    } else {
      var m := j - 1;
      NoRetryAfterTimeout(run, i, m, t);
      assert forall timed :: !StepAt(run, m, Call(t, timed));
      AfterTimeout(run, m, t);
    }
    if j + 1 < |run| {
      GaveUpRests(run[j], run[j + 1], t);
    }
  }

  lemma TimeoutGivesUp(s: State, s': State, t: ThreadId)
    requires NextStep(s, s', Timeout(t))
    ensures GaveUp(s', t)
  {
  }

  lemma AfterTimeout(run: seq<State>, m: nat, t: ThreadId)
    requires IsRun(run) && m + 1 < |run| && GaveUp(run[m], t)
    requires forall timed :: !StepAt(run, m, Call(t, timed))
    ensures GaveUp(run[m + 1], t)
  {
    var s, s' := run[m], run[m + 1];
    assert Next(s, s');
    var step := SomeStep(s, s');
    var called := Call(t, if step.Call? then step.timed else false);
    assert step == called ==> StepAt(run, m, called);
    if step.t != t {
      OthersStep(s, s', step, t);
    }
  }

  lemma GaveUpRests(s: State, s': State, t: ThreadId)
    requires GaveUp(s, t)
    ensures !NextStep(s, s', Increment(t)) && !NextStep(s, s', Cas(t))
  {
  }

  /** The wait has run out, and the call has not come back or has come back with false. */
  ghost predicate GaveUp(s: State, t: ThreadId) {
    && t in s.threads
    && (s.threads[t].pc == Back(TimedOut) || (s.threads[t].pc.Out? && s.threads[t].answer == NotLocked))
  }

  /** A thread that waits goes to sleep if and only if somebody holds the lock. */
  lemma SleepsWhileHeld(run: seq<State>, i: nat, t: ThreadId)
    requires IsRun(run) && i + 1 < |run| && At(run[i], t, Blocked) && !At(run[i + 1], t, Blocked)
    ensures At(run[i + 1], t, Asleep) <==> exists h :: At(run[i], h, Holding)
  {
    RunInv(run, i);
    assert Next(run[i], run[i + 1]);
    var step := SomeStep(run[i], run[i + 1]);
    if step.t != t {
      OthersStep(run[i], run[i + 1], step, t);
    }
  }

  /** A thread that unlocks goes on to wake a sleeper if and only if somebody else is counted
      in. */
  lemma WakesWhileUsed(run: seq<State>, i: nat, t: ThreadId)
    requires IsRun(run) && i + 1 < |run| && At(run[i], t, Releasing) && !At(run[i + 1], t, Releasing)
    ensures At(run[i + 1], t, Waking) <==> exists u :: u in Users(run[i]) && u != t
  {
    RunInv(run, i);
    assert Next(run[i], run[i + 1]);
    var step := SomeStep(run[i], run[i + 1]);
    if step.t != t {
      OthersStep(run[i], run[i + 1], step, t);
    }
    OtherUsers(Users(run[i]), t);
  }

  lemma OtherUsers(users: set<ThreadId>, t: ThreadId)
    requires t in users
    ensures |users| == 1 <==> !exists u :: u in users && u != t
  {
    var others := users - {t};
    assert users == others + {t};
    if u :| u in users && u != t {
      assert u in others;
    } else {
      assert others == {};
    }
  }

  // ---------------------------------------------------------------------------
  // Nobody gets stuck.

  ghost predicate Enabled(s: State, step: Step) {
    exists s' :: NextStep(s, s', step)
  }

  /** The step that a thread comes to next; asleep, what can end its wait. */
  ghost predicate GoesOn(s: State, t: ThreadId)
    requires t in s.threads
  {
    match s.threads[t].pc
    case Out => forall timed :: Enabled(s, Call(t, timed))
    case Retrying => Enabled(s, Increment(t))
    case Entering => Enabled(s, Cas(t))
    case Blocked => Enabled(s, Wait(t))
    case Asleep =>
      && Enabled(s, Spurious(t)) && Enabled(s, Interrupt(t))
      && (s.threads[t].timed ==> Enabled(s, Timeout(t)))
    case Back(_) => Enabled(s, Decrement(t))
    case Holding => Enabled(s, Clear(t))
    case Releasing => Enabled(s, Leave(t))
    case Waking =>
      if exists u :: At(s, u, Asleep) then forall u :: At(s, u, Asleep) ==> Enabled(s, Wake(t, u))
      else Enabled(s, WakeNobody(t))
  }

  lemma StepEnabled(s: State, s': State, step: Step)
    requires NextStep(s, s', step)
    ensures Enabled(s, step)
  {
  }

  /** Every thread can always take its next step, and a sleeper's wait can fail or, in
      try_lock_for, run out. */
  lemma NobodyStuck(s: State, t: ThreadId)
    requires t in s.threads
    ensures GoesOn(s, t)
  {
    hide Enabled;
    var x := s.threads[t];
    match x.pc {
      case Out =>
        forall timed
          ensures Enabled(s, Call(t, timed))
        {
          StepEnabled(s, s.(threads := s.threads[t := Thread(Retrying, timed, None)]), Call(t, timed));
        }
      case Retrying => StepEnabled(s, Goto(s, t, Entering).(numUsing := s.numUsing + 1), Increment(t));
      case Entering =>
        var next := if s.futexp == 0 then Answered(s, t, Holding, Locked).(futexp := 1) else Goto(s, t, Blocked);
        StepEnabled(s, next, Cas(t));
      case Blocked => StepEnabled(s, Goto(s, t, if s.futexp == 1 then Asleep else Back(Again)), Wait(t));
      case Asleep =>
        StepEnabled(s, Goto(s, t, Back(Again)), Spurious(t));
        StepEnabled(s, Goto(s, t, Back(Failed)), Interrupt(t));
        if x.timed {
          StepEnabled(s, Goto(s, t, Back(TimedOut)), Timeout(t));
        }
      case Back(why) =>
        var next := match why
          case Again => Goto(s, t, Retrying)
          case TimedOut => Answered(s, t, Out, NotLocked)
          case Failed => Answered(s, t, Out, Error);
        StepEnabled(s, next.(numUsing := s.numUsing - 1), Decrement(t));
      case Holding =>
        StepEnabled(s, if s.futexp == 1 then Goto(s, t, Releasing).(futexp := 0) else Goto(s, t, Out), Clear(t));
      case Releasing =>
        StepEnabled(s, Goto(s, t, if s.numUsing - 1 == 0 then Out else Waking).(numUsing := s.numUsing - 1), Leave(t));
      case Waking =>
        if exists u :: At(s, u, Asleep) {
          forall u | At(s, u, Asleep)
            ensures Enabled(s, Wake(t, u))
          {
            StepEnabled(s, Goto(Goto(s, t, Out), u, Back(Again)), Wake(t, u));
          }
        } else {
          StepEnabled(s, Goto(s, t, Out), WakeNobody(t));
        }
    }
  }
}
