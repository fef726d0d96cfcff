/** No thread of the runtime is ever stuck: what each can do next. */
module RuntimeProgress {
  import opened Prelude
  import opened Poller
  import opened Runtime
  import opened RuntimeInv
  import opened RuntimeRuns
  import opened RuntimeWaits

  /** The user code on thread `t` is at a point where the call it is in, if any, lets it go on. */
  predicate UserCanGoOn(s: State, t: nat)
    requires Runs(s, t)
  {
    var fb := s.fibers[Running(s, t)];
    if fb.armed then Enabled(s, Yield(t))
    else if fb.call.None? then
      Enabled(s, Finish(t, false)) && Enabled(s, Finish(t, true))
    else if fb.call.value < |s.calls| then
      match s.calls[fb.call.value].stage
      case Try => Enabled(s, IoReturn(t))
      case Timed => Enabled(s, IoRegister(t, false)) && Enabled(s, IoRegister(t, true))
      case Waiting => Enabled(s, IoResume(t))
    else false
  }

  /** In every reachable state a thread that has not left its loop can go on from where it stands: with a pick, into the
      picked task, with the closure or the cancellation it has in hand, with its user code, or with its idle fiber. */
  lemma NoThreadIsStuck(n: nat, s: State, t: nat)
    requires Reachable(n, s) && t < |s.threads| && s.threads[t].running
    ensures match s.threads[t].held
      case Nothing => Enabled(s, Pick(t))
      case Picked(_) => Enabled(s, Enter(t))
      case RunFiber(_, _) => Runs(s, t) && UserCanGoOn(s, t)
      case RunCb(_, _, UserCode) => Runs(s, t) && UserCanGoOn(s, t)
      case RunCb(_, _, Execute(_)) => Enabled(s, RunClosure(t))
      case RunCb(_, _, Revoke(_)) => Enabled(s, RevokeEvent(t, false)) && Enabled(s, RevokeEvent(t, true))
      case RunIdle(cbs) =>
        if cbs != [] then Enabled(s, IdleSchedule(t))
        else Enabled(s, IdleYield(t)) && Enabled(s, IdleFinish(t)) && forall probe: nat :: Enabled(s, IdleExpire(t, probe))
  {
    StuckFree(n, s, t);
    if Runs(s, t) { UserGoesOn(s, t); }
  }

  lemma StuckFree(n: nat, s: State, t: nat)
    requires Reachable(n, s) && t < |s.threads|
    ensures |s.poll.ctxs| >= 32 && HeldOk(s.fibers, s.threads[t], t)
    ensures Runs(s, t) ==> FiberCallOk(s.fibers[Running(s, t)], Running(s, t), s.calls)
  {
    ReachableGood(n, s);
    WhatIsThere(s, t);
  }

  lemma WhatIsThere(s: State, t: nat)
    requires Good(s) && t < |s.threads|
    ensures |s.poll.ctxs| >= 32 && HeldOk(s.fibers, s.threads[t], t)
    ensures Runs(s, t) ==> FiberCallOk(s.fibers[Running(s, t)], Running(s, t), s.calls)
  {
    assert ThreadOk(s.fibers, s.threads[t], t);
  }

  lemma UserGoesOn(s: State, t: nat)
    requires Runs(s, t) && |s.poll.ctxs| >= 32 && FiberCallOk(s.fibers[Running(s, t)], Running(s, t), s.calls)
    ensures UserCanGoOn(s, t)
  {
  }

  /** What comes from outside is never refused: in every reachable state user code can schedule, register callbacks,
      cancel, and set a timer at any new address; and epoll can report any descriptor to an idle thread. */
  lemma OutsideIsFree(n: nat, s: State, t: nat, id: nat, thread: Option<nat>, fd: nat, ev: Event, fails: bool, addr: nat, ms: nat)
    requires Reachable(n, s)
    ensures Enabled(s, Tick(ms)) && Enabled(s, Spawn(id, thread)) && Enabled(s, SpawnFiber(thread))
    ensures Enabled(s, AddCallback(fd, ev, id, fails)) && Enabled(s, Cancel(fd, ev, fails)) && Enabled(s, CancelEach(fd, fails))
    ensures addr !in s.addrs ==> forall recurring :: Enabled(s, AddTimer(addr, ms, id, recurring))
    ensures t < |s.threads| && s.threads[t].held == RunIdle([]) && fd < |s.poll.ctxs| ==>
      forall reported, hangup :: Enabled(s, IdleReport(t, fd, reported, hangup, fails))
  {
    PollerIsThere(n, s);
  }

  /** A fiber that runs outside every hook can begin any call and sleep at any new address; one in a call that is about to
      wait can set its timer at any new address. */
  lemma HooksAreFree(s: State, t: nat, fd: nat, ev: Event, addr: nat, ms: nat)
    requires Runs(s, t) && !s.fibers[Running(s, t)].armed
    ensures s.fibers[Running(s, t)].call.None? ==> forall kind, to :: Enabled(s, IoBegin(t, kind, fd, ev, to))
    ensures s.fibers[Running(s, t)].call.None? && addr !in s.addrs ==> Enabled(s, Sleep(t, ms, addr))
    ensures InCall(s, t, Try) && addr !in s.addrs ==> Enabled(s, IoTimer(t, addr))
  {
  }

  lemma PollerIsThere(n: nat, s: State)
    requires Reachable(n, s)
    ensures |s.poll.ctxs| >= 32
  {
    ReachableOk(n, s, One());
  }

  // ------------------------------------------------------------------- leaving the loop

  /** A thread that has left its loop holds nothing, and its idle fiber has ended. */
  ghost predicate LeftOk(s: State) {
    forall t :: 0 <= t < |s.threads| && !s.threads[t].running ==> s.threads[t].held == Nothing && s.threads[t].idle == TERM
  }

  lemma HandLeft(s: State, op: Op)
    requires LeftOk(s) && Enabled(s, op) && Step(s, op).Ok?
    requires op.Pick? || op.Enter? || op.Yield? || op.Finish?
    ensures |Step(s, op).state.threads| == |s.threads| && LeftOk(Step(s, op).state)
  {
  }

  lemma ClosureLeft(s: State, op: Op)
    requires LeftOk(s) && Enabled(s, op) && Step(s, op).Ok? && (op.RunClosure? || op.RevokeEvent?)
    ensures |Step(s, op).state.threads| == |s.threads| && LeftOk(Step(s, op).state)
  {
  }

  lemma IdleLeft(s: State, op: Op)
    requires LeftOk(s) && Enabled(s, op) && Step(s, op).Ok?
    requires op.IdleExpire? || op.IdleSchedule? || op.IdleYield? || op.IdleFinish?
    ensures |Step(s, op).state.threads| == |s.threads| && LeftOk(Step(s, op).state)
  {
  }

  lemma StepLeft(s: State, op: Op)
    requires RuntimeOk(s) && LeftOk(s) && Enabled(s, op) && Step(s, op).Ok?
    ensures |Step(s, op).state.threads| == |s.threads| && LeftOk(Step(s, op).state)
  {
    if op.Pick? || op.Enter? || op.Yield? || op.Finish? {
      HandLeft(s, op);
    } else if op.RunClosure? || op.RevokeEvent? {
      ClosureLeft(s, op);
    } else if MovesHand(op) {
      IdleLeft(s, op);
    } else {
      AppendedBoth(s, op);
    }
  }

  lemma {:induction false} RunLeft(s: State, ops: seq<Op>, s': State)
    requires RuntimeOk(s) && Conserved(s, One()) && LeftOk(s) && Reaches(s, ops, s')
    ensures |s'.threads| == |s.threads| && LeftOk(s')
    decreases |ops|
  {
    if ops != [] {
      StepKeeps(s, ops[0]);
      StepConserves(s, ops[0], One());
      StepLeft(s, ops[0]);
      RunLeft(Step(s, ops[0]).state, ops[1..], s');
    }
  }

  /** In every reachable state there are the `n` threads of the start, and one that has left its loop holds no task, and
      its idle fiber has ended. */
  lemma ThreadsStay(n: nat, s: State)
    requires Reachable(n, s)
    ensures |s.threads| == n
    ensures forall t :: 0 <= t < n && !s.threads[t].running ==> s.threads[t].held == Nothing && s.threads[t].idle == TERM
  {
    var ops :| Reaches(Start(n), ops, s);
    StartOk(n, One());
    RunLeft(Start(n), ops, s);
  }
}
