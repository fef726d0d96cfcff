/** When a time limit that runs out ends the wait of a hooked call: exactly if the call has registered by the time
    its deadline check cancels the event, and epoll_ctl does not refuse. */
module RuntimeLimits {
  import opened Prelude
  import opened Tasks
  import opened Poller
  import opened PollerLaws
  import opened Runtime
  import opened RuntimeInv
  import opened RuntimeIo
  import opened RuntimeRuns
  import opened RuntimeMoves
  import opened RuntimeWaits

  /** While a call waits, its limit is pursued: a timer of its own is in the set, or a deadline check of its own is
      queued or in a thread's hands, or its flag is set. And a fiber in a slot waits there in a live call
      of its own. */
  lemma LimitsArePursued(n: nat, s: State, k: nat, fd: nat, ev: Event)
    requires Reachable(n, s)
    ensures k < |s.calls| && s.calls[k].live && s.calls[k].stage == Waiting && s.calls[k].timeout.Some? ==>
      s.calls[k].cancelled || UnderWay(s, Timeout(k))
    ensures SlotFiber(s.poll.ctxs, fd, ev).Some? ==>
      exists c :: c in s.calls && c.live && c.stage == Waiting && c.fd == fd && c.ev == ev && SlotFiber(s.poll.ctxs, fd, ev) == Some(c.fiber)
  {
    ReachableGood(n, s);
    if SlotFiber(s.poll.ctxs, fd, ev).Some? {
      var f := SlotFiber(s.poll.ctxs, fd, ev).value;
      assert WaitsFor(f, fd, ev, s.fibers, s.calls) && FiberCallOk(s.fibers[f], f, s.calls);
      assert s.calls[s.fibers[f].call.value] in s.calls;
    }
  }

  /** The call's slot holds its fiber. */
  predicate ParkedOn(ctxs: seq<Ctx>, c: Call) {
    SlotFiber(ctxs, c.fd, c.ev) == Some(c.fiber)
  }

  /** The call still waits for its event although its limit has been declared. */
  predicate Overdue(s: State, k: nat) {
    k < |s.calls| && s.calls[k].live && s.calls[k].cancelled && ParkedOn(s.poll.ctxs, s.calls[k])
  }

  predicate InNoSlot(ctxs: seq<Ctx>, f: nat) {
    forall fd :: 0 <= fd < |ctxs| ==> ctxs[fd].read.fiber != Some(f) && ctxs[fd].write.fiber != Some(f)
  }

  ghost predicate FiberQueued(queue: seq<Task>, f: nat) {
    exists i :: 0 <= i < |queue| && queue[i].fiber == Some(f)
  }

  /** The wait is over: the fiber is in no slot, and it is queued, picked or running. */
  ghost predicate Woken(s: State, k: nat) {
    k < |s.calls| && s.calls[k].stage == Waiting &&
    var f := s.calls[k].fiber;
    InNoSlot(s.poll.ctxs, f) && (FiberQueued(s.queue, f) || exists t :: 0 <= t < |s.threads| && InHands(s.threads[t], f))
  }

  /** What decides it: the call has registered, and if its slot still holds the fiber, epoll_ctl does not refuse. */
  predicate Effective(s: State, k: nat, fails: bool)
    requires k < |s.calls|
  {
    s.calls[k].stage == Waiting && (ParkedOn(s.poll.ctxs, s.calls[k]) ==> !fails)
  }

  // --------------------------------------------------------------- where a fiber waits

  lemma AnySlot(ctxs: seq<Ctx>, f: nat)
    ensures InNoSlot(ctxs, f) <==> forall fd: nat, ev :: SlotFiber(ctxs, fd, ev) != Some(f)
  {
    if forall fd: nat, ev :: SlotFiber(ctxs, fd, ev) != Some(f) {
      forall fd | 0 <= fd < |ctxs|
        ensures ctxs[fd].read.fiber != Some(f) && ctxs[fd].write.fiber != Some(f)
      {
        assert SlotFiber(ctxs, fd, READ) != Some(f) && SlotFiber(ctxs, fd, WRITE) != Some(f);
      }
    }
  }

  lemma {:induction false} PendingZero(ctxs: seq<Ctx>, w: Task -> nat)
    requires forall fd :: 0 <= fd < |ctxs| ==> CtxWeight(ctxs[fd], w) == 0
    ensures Pending(ctxs, w) == 0
  {
    if ctxs != [] {
      assert CtxWeight(ctxs[0], w) == 0;
      PendingZero(ctxs[1..], w);
    }
  }

  /** A fiber in no slot has no token there. */
  lemma NoSlotToken(p: PollState, f: nat)
    requires Inv(p) && SlotsPlain(p.ctxs) && InNoSlot(p.ctxs, f)
    ensures Pending(p.ctxs, TaskTok(f)) == 0
  {
    forall fd | 0 <= fd < |p.ctxs|
      ensures CtxWeight(p.ctxs[fd], TaskTok(f)) == 0
    {
      var c := p.ctxs[fd];
      assert CtxOk(c) && SlotOk(c, READ) && SlotOk(c, WRITE);
    }
    PendingZero(p.ctxs, TaskTok(f));
  }

  /** A fiber that is no sleeper has no token in a timer or in a thread's hands. */
  lemma NoSleepTokens(s: State, f: nat)
    requires !UnderWay(s, Wake(f))
    ensures Total(s.timers, TimerTok(f)) == 0 && Total(s.threads, ThreadTok(f)) == 0
  {
    TotalZero(s.timers, TimerTok(f));
    forall t | 0 <= t < |s.threads|
      ensures ThreadTok(f)(s.threads[t]) == 0
    {
      var h := s.threads[t].held;
      assert Wake(f) !in HandClosures(h);
      if h.RunIdle? { TotalZero(h.cbs, ClosureTok(f)); }
    }
    TotalZero(s.threads, ThreadTok(f));
  }

  /** A fiber that waits for its turn in a call, and is in no slot, is queued. */
  lemma TokenIsQueued(s: State, f: nat)
    requires RuntimeOk(s) && WaitOk(s) && f < |s.fibers| && s.fibers[f].call.Some? && Need(s.fibers[f]) == 1
    requires InNoSlot(s.poll.ctxs, f)
    ensures FiberQueued(s.queue, f)
  {
    assert Tokens(s, f) == Due(s.fibers, f);
    NoSlotToken(s.poll, f);
    NoSleepTokens(s, f);
    if !FiberQueued(s.queue, f) {
      TotalZero(s.queue, TaskTok(f));
    }
  }

  /** The only slot that can hold a call's fiber is the call's own. */
  lemma SlotOfCall(s: State, k: nat, fd: nat, ev: Event)
    requires WaitOk(s) && k < |s.calls| && s.calls[k].live && SlotFiber(s.poll.ctxs, fd, ev) == Some(s.calls[k].fiber)
    ensures fd == s.calls[k].fd && ev == s.calls[k].ev && s.calls[k].stage == Waiting
  {
    assert LiveOk(s.calls[k], k, s.fibers) && WaitsFor(s.calls[k].fiber, fd, ev, s.fibers, s.calls);
  }

  /** A waiting call's fiber that is in no slot is queued, picked or running. */
  lemma WaitingIsWoken(s: State, k: nat)
    requires RuntimeOk(s) && WaitOk(s) && k < |s.calls| && s.calls[k].live && s.calls[k].stage == Waiting
    requires !ParkedOn(s.poll.ctxs, s.calls[k])
    ensures Woken(s, k)
  {
    var f := s.calls[k].fiber;
    assert LiveOk(s.calls[k], k, s.fibers) && FiberCallOk(s.fibers[f], f, s.calls) && FiberOk(s.fibers[f], f, s.threads);
    forall fd: nat, ev
      ensures SlotFiber(s.poll.ctxs, fd, ev) != Some(f)
    {
      if SlotFiber(s.poll.ctxs, fd, ev) == Some(f) { SlotOfCall(s, k, fd, ev); }
    }
    AnySlot(s.poll.ctxs, f);
    if s.fibers[f].owner.Some? {
      OwnedInHands(s, f);
    } else {
      TokenIsQueued(s, f);
    }
  }

  /** A fiber in a call that a thread owns is in that thread's hands. */
  lemma OwnedInHands(s: State, f: nat)
    requires RuntimeOk(s) && f < |s.fibers| && s.fibers[f].call.Some? && s.fibers[f].owner.Some?
    ensures s.fibers[f].owner.value < |s.threads| && InHands(s.threads[s.fibers[f].owner.value], f)
    ensures s.fibers[f].state == EXEC ==>
      Runs(s, s.fibers[f].owner.value) && Running(s, s.fibers[f].owner.value) == f
  {
    assert FiberOk(s.fibers[f], f, s.threads);
    var t := s.fibers[f].owner.value;
    assert ThreadOk(s.fibers, s.threads[t], t);
  }

  // ------------------------------------------------------------- the cancellation's step

  lemma CancelEmpties(p: PollState, fd: nat, ev: Event)
    requires Inv(p) && fd < |p.ctxs| && p.ctxs[fd].events.Has(ev)
    ensures var o := CancelEvent(p, fd, ev, false);
      o.Done? && o.ok && SlotFiber(o.poller.ctxs, fd, ev).None? && !o.poller.ctxs[fd].events.Has(ev) && |o.poller.ctxs| == |p.ctxs|
    ensures CancelEvent(p, fd, ev, true) == Done(p, false, [])
  {
    CancelEventLaw(p, fd, ev, false, (_: Task) => 0);
    assert CtxOk(p.ctxs[fd]) && SlotOk(p.ctxs[fd], ev);
  }

  /** What the cancellation leaves: the calls and fibers as they were, and the call parked only if epoll_ctl refused. */
  lemma RevokeLeaves(s: State, t: nat, fails: bool)
    requires Good(s) && Enabled(s, RevokeEvent(t, fails))
    ensures var k := s.threads[t].held.todo.call; k < |s.calls| && s.calls[k].cancelled
    ensures var k := s.threads[t].held.todo.call;
      var r := Step(s, RevokeEvent(t, fails));
      && r.Ok? && Good(r.state) && r.state.calls == s.calls
      && (ParkedOn(r.state.poll.ctxs, s.calls[k]) <==> ParkedOn(s.poll.ctxs, s.calls[k]) && fails)
  {
    assert ToRevoke(s.threads[t]).Some?;
    RevokeKeeps(s, t, fails);
    StepGood(s, RevokeEvent(t, fails));
    RevokeParks(s, t, fails);
  }

  lemma RevokeParks(s: State, t: nat, fails: bool)
    requires RuntimeOk(s) && Enabled(s, RevokeEvent(t, fails)) && DoRevoke(s, t, fails).Ok?
    requires s.threads[t].held.todo.call < |s.calls|
    ensures var c := s.calls[s.threads[t].held.todo.call];
      ParkedOn(DoRevoke(s, t, fails).state.poll.ctxs, c) <==> ParkedOn(s.poll.ctxs, c) && fails
  {
    var c := s.calls[s.threads[t].held.todo.call];
    CancelPlain(s.poll, c.fd, c.ev, fails);
    if ParkedOn(s.poll.ctxs, c) {
      SlotToken(s.poll, c.fiber, c.fd, c.ev);
      CancelEmpties(s.poll, c.fd, c.ev);
    }
  }

  /** In every reachable state: the cancellation that ends a deadline check leaves its live call woken exactly if the
      call has registered and, in case its slot still holds the fiber, epoll_ctl does not refuse. */
  lemma LimitWakesIff(n: nat, s: State, t: nat, fails: bool)
    requires Reachable(n, s) && Enabled(s, RevokeEvent(t, fails))
    ensures Step(s, RevokeEvent(t, fails)).Ok?
    ensures var k := s.threads[t].held.todo.call;
      k < |s.calls| && s.calls[k].cancelled
      && (s.calls[k].live ==> (Woken(Step(s, RevokeEvent(t, fails)).state, k) <==> Effective(s, k, fails)))
  {
    ReachableGood(n, s);
    RevokeLeaves(s, t, fails);
    var k := s.threads[t].held.todo.call;
    var s' := Step(s, RevokeEvent(t, fails)).state;
    AnySlot(s'.poll.ctxs, s.calls[k].fiber);
    if s.calls[k].live && Effective(s, k, fails) { WaitingIsWoken(s', k); }
  }

  // --------------------------------------------------------------------- what follows

  /** The limit will not be missed any more: the call has ended, or waits for its turn with the flag set. */
  ghost predicate Freed(s: State, k: nat) {
    k < |s.calls| && (s.calls[k].live ==> s.calls[k].cancelled && s.calls[k].stage == Waiting && !ParkedOn(s.poll.ctxs, s.calls[k]))
  }

  lemma PlainFreed(s: State, s': State, k: nat)
    requires Freed(s, k) && PlainMove(s, s')
    ensures Freed(s', k)
  {
  }

  lemma CallFreed(s: State, s': State, t: nat, k: nat)
    requires RuntimeOk(s) && WaitOk(s) && Freed(s, k) && CallMove(s, s', t)
    ensures Freed(s', k)
  {
    var f := Running(s, t);
    RunningCall(s, t);
    if s.calls[k].live && k != s.fibers[f].call.value {
      assert LiveOk(s.calls[k], k, s.fibers);
      assert s.calls[k].fiber != f;
    }
  }

  lemma StepFreed(s: State, op: Op, k: nat)
    requires RuntimeOk(s) && WaitOk(s) && Enabled(s, op) && Step(s, op).Ok? && Freed(s, k)
    ensures Freed(Step(s, op).state, k)
  {
    var s' := Step(s, op).state;
    if MovesHand(op) {
      HandPlain(s, op);
      PlainFreed(s, s', k);
    } else if op.IoTimer? || op.IoRegister? || op.IoResume? || op.IoReturn? {
      IoMoves(s, op);
      CallFreed(s, s', op.t, k);
    } else if op.IoBegin? {
      BeginMoves(s, op.t, op.kind, op.fd, op.ev, op.timeout);
    } else {
      QuietPlain(s, op);
      PlainFreed(s, s', k);
    }
  }

  lemma {:induction false} RunFreed(s: State, ops: seq<Op>, s': State, k: nat)
    requires Good(s) && Freed(s, k) && Reaches(s, ops, s')
    ensures Freed(s', k)
    decreases |ops|
  {
    if ops != [] {
      StepGood(s, ops[0]);
      StepFreed(s, ops[0], k);
      RunFreed(Step(s, ops[0]).state, ops[1..], s', k);
    }
  }

  /** Some run from `s` leaves the call waiting with its flag set. */
  ghost predicate CanBeOverdue(s: State, k: nat) {
    exists ops, s' :: Reaches(s, ops, s') && Overdue(s', k)
  }

  lemma OneStepBefore(s: State, op: Op, k: nat)
    requires Enabled(s, op) && Step(s, op).Ok? && CanBeOverdue(Step(s, op).state, k)
    ensures CanBeOverdue(s, k)
  {
    var ops, s' :| Reaches(Step(s, op).state, ops, s') && Overdue(s', k);
    assert ([op] + ops)[1..] == ops;
    assert Reaches(s, [op] + ops, s');
  }

  lemma NowOverdue(s: State, k: nat)
    requires Overdue(s, k)
    ensures CanBeOverdue(s, k)
  {
    assert Reaches(s, [], s);
  }

  /** A live call that has not registered is running. */
  lemma UnregisteredRuns(s: State, k: nat)
    requires Good(s) && k < |s.calls| && s.calls[k].live && s.calls[k].stage != Waiting
    ensures var f := s.calls[k].fiber;
      && f < |s.fibers| && s.fibers[f].call == Some(k) && !s.fibers[f].armed && s.fibers[f].owner.Some?
      && Runs(s, s.fibers[f].owner.value) && Running(s, s.fibers[f].owner.value) == f
  {
    var f := s.calls[k].fiber;
    assert LiveOk(s.calls[k], k, s.fibers) && FiberCallOk(s.fibers[f], f, s.calls) && FiberOk(s.fibers[f], f, s.threads);
    OwnedInHands(s, f);
  }

  /** Once nothing else is registered for its event, the call can register. */
  lemma CanRegister(s: State, t: nat, k: nat)
    requires Good(s) && InCall(s, t, Timed) && s.fibers[Running(s, t)].call == Some(k)
    requires s.calls[k].live && s.calls[k].cancelled && s.calls[k].fiber == Running(s, t)
    requires var c := s.calls[k]; c.fd < |s.poll.ctxs| ==> !s.poll.ctxs[c.fd].events.Has(c.ev)
    ensures CanBeOverdue(s, k)
  {
    var c := s.calls[k];
    var op := IoRegister(t, false);
    StepKeeps(s, op);
    AddPlain(s.poll, c.fd, c.ev, c.fiber, None, false);
    AddSlot(s.poll, c.fd, c.ev, c.fiber, None, false);
    NowOverdue(Step(s, op).state, k);
    OneStepBefore(s, op, k);
  }

  /** Cancelling the event leaves nothing registered for it, and fibers, calls and threads as they were. */
  lemma CancelClears(s: State, fd: nat, ev: Event)
    requires Good(s)
    ensures Step(s, Cancel(fd, ev, false)).Ok?
    ensures var s' := Step(s, Cancel(fd, ev, false)).state;
      && Good(s') && s'.fibers == s.fibers && s'.calls == s.calls && s'.threads == s.threads
      && (fd < |s'.poll.ctxs| ==> !s'.poll.ctxs[fd].events.Has(ev))
  {
    CancelEventLaw(s.poll, fd, ev, false, (_: Task) => 0);
    if fd < |s.poll.ctxs| && s.poll.ctxs[fd].events.Has(ev) { CancelEmpties(s.poll, fd, ev); }
    StepGood(s, Cancel(fd, ev, false));
  }

  lemma TimedCanBeOverdue(s: State, k: nat)
    requires Good(s) && k < |s.calls| && s.calls[k].live && s.calls[k].cancelled && s.calls[k].stage == Timed
    ensures CanBeOverdue(s, k)
  {
    var c := s.calls[k];
    UnregisteredRuns(s, k);
    var t := s.fibers[c.fiber].owner.value;
    var op := Cancel(c.fd, c.ev, false);
    CancelClears(s, c.fd, c.ev);
    CanRegister(Step(s, op).state, t, k);
    OneStepBefore(s, op, k);
  }

  lemma {:induction false} FreshAddress(addrs: set<nat>) returns (a: nat)
    ensures forall b :: b in addrs ==> b < a
    decreases |addrs|
  {
    if addrs == {} {
      a := 0;
    } else {
      var b :| b in addrs;
      a := FreshAddress(addrs - {b});
      a := if a > b then a else b + 1;
      assert forall x :: x in addrs ==> x == b || x in addrs - {b};
    }
  }

  lemma TryCanBeOverdue(s: State, k: nat)
    requires Good(s) && k < |s.calls| && s.calls[k].live && s.calls[k].cancelled && s.calls[k].stage == Try
    ensures CanBeOverdue(s, k)
  {
    UnregisteredRuns(s, k);
    var t := s.fibers[s.calls[k].fiber].owner.value;
    var addr := FreshAddress(s.addrs);
    var op := IoTimer(t, addr);
    StepGood(s, op);
    TimedCanBeOverdue(Step(s, op).state, k);
    OneStepBefore(s, op, k);
  }

  /** The exact condition, over all that can happen afterwards: the limit of a live call whose deadline check cancels
      its event is never missed - the call does not go on or start again to wait for the event with its flag set -
      if and only if the cancellation is effective. */
  lemma LimitNoticedIff(n: nat, s: State, t: nat, fails: bool)
    requires Reachable(n, s) && Enabled(s, RevokeEvent(t, fails))
    ensures Step(s, RevokeEvent(t, fails)).Ok?
    ensures var k := s.threads[t].held.todo.call;
      k < |s.calls| && (s.calls[k].live ==> (CanBeOverdue(Step(s, RevokeEvent(t, fails)).state, k) <==> !Effective(s, k, fails)))
  {
    ReachableGood(n, s);
    RevokeLeaves(s, t, fails);
    var k := s.threads[t].held.todo.call;
    var s' := Step(s, RevokeEvent(t, fails)).state;
    if s.calls[k].live {
      if Effective(s, k, fails) {
        forall ops, s2 | Reaches(s', ops, s2)
          ensures !Overdue(s2, k)
        {
          RunFreed(s', ops, s2, k);
        }
      } else if s.calls[k].stage == Waiting {
        NowOverdue(s', k);
      } else if s.calls[k].stage == Timed {
        TimedCanBeOverdue(s', k);
      } else {
        TryCanBeOverdue(s', k);
      }
    }
  }
}
