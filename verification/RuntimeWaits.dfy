/** Which fiber waits for what: every live call belongs to the fiber that makes it, a slot holds a fiber only for
    the event its call waits for, and a call with a limit is pursued by a timer or a deadline check until its
    flag is set. */
module RuntimeWaits {
  import opened Prelude
  import opened Tasks
  import opened Poller
  import opened PollerLaws
  import opened Runtime
  import opened RuntimeInv
  import opened RuntimeRuns
  import opened RuntimeMoves

  // ------------------------------------------------------------------ the invariant

  /** A fiber in a call makes that call and no other; before it has registered it is running. */
  ghost predicate FiberCallOk(fb: Fiber, f: nat, calls: seq<Call>) {
    fb.call.Some? ==>
      var k := fb.call.value;
      && k < |calls| && calls[k].live && calls[k].fiber == f && (fb.state == EXEC || fb.state == HOLD)
      && (calls[k].stage != Waiting ==> fb.state == EXEC && !fb.armed)
  }

  ghost predicate LiveOk(c: Call, k: nat, fibers: seq<Fiber>) {
    c.live ==> c.fiber < |fibers| && fibers[c.fiber].call == Some(k)
  }

  ghost predicate Linked(fibers: seq<Fiber>, calls: seq<Call>) {
    && (forall f :: 0 <= f < |fibers| ==> FiberCallOk(fibers[f], f, calls))
    && (forall k :: 0 <= k < |calls| ==> LiveOk(calls[k], k, fibers))
  }

  ghost predicate WaitsFor(f: nat, fd: nat, ev: Event, fibers: seq<Fiber>, calls: seq<Call>) {
    && f < |fibers| && fibers[f].call.Some? && fibers[f].call.value < |calls|
    && var c := calls[fibers[f].call.value]; c.stage == Waiting && c.fd == fd && c.ev == ev
  }

  ghost predicate SlotsHeld(ctxs: seq<Ctx>, fibers: seq<Fiber>, calls: seq<Call>) {
    forall fd: nat, ev :: SlotFiber(ctxs, fd, ev).Some? ==> WaitsFor(SlotFiber(ctxs, fd, ev).value, fd, ev, fibers, calls)
  }

  /** A sleeping fiber is in no hooked call. */
  ghost predicate SleepersFree(s: State) {
    forall f :: 0 <= f < |s.fibers| && UnderWay(s, Wake(f)) ==> s.fibers[f].call.None?
  }

  /** A call that has set its timer and not gone back to the system call. */
  predicate Limited(c: Call) {
    c.live && c.timeout.Some? && c.stage != Try
  }

  /** The call's limit is not forgotten: a timer of its own is in the set, or a deadline check of its own is queued or
      in a thread's hands, or its flag is set. */
  ghost predicate Pursued(s: State, k: nat)
    requires k < |s.calls|
  {
    s.calls[k].cancelled || UnderWay(s, Timeout(k))
  }

  ghost predicate LimitsOk(s: State) {
    forall k :: 0 <= k < |s.calls| && Limited(s.calls[k]) ==> Pursued(s, k)
  }

  /** The call whose event a deadline check has still to cancel. */
  function ToRevoke(th: Thread): Option<nat> {
    match th.held
    case RunCb(_, _, Revoke(k)) => Some(k)
    case _ => None
  }

  /** It has set the call's flag. */
  ghost predicate FlagsOk(threads: seq<Thread>, calls: seq<Call>) {
    forall t :: 0 <= t < |threads| && ToRevoke(threads[t]).Some? ==>
      ToRevoke(threads[t]).value < |calls| && calls[ToRevoke(threads[t]).value].cancelled
  }

  ghost predicate WaitOk(s: State) {
    && Linked(s.fibers, s.calls) && SlotsHeld(s.poll.ctxs, s.fibers, s.calls)
    && SleepersFree(s) && LimitsOk(s) && FlagsOk(s.threads, s.calls)
  }

  // -------------------------------------------------------------- fibers, calls, slots

  lemma FibersLinked(s: State, s': State)
    requires RuntimeOk(s) && WaitOk(s) && FibersMove(s, s')
    ensures Linked(s'.fibers, s'.calls) && SlotsHeld(s'.poll.ctxs, s'.fibers, s'.calls)
  {
    forall f | 0 <= f < |s'.fibers|
      ensures FiberCallOk(s'.fibers[f], f, s'.calls)
    {
      if f < |s.fibers| { assert FiberCallOk(s.fibers[f], f, s.calls) && FiberOk(s.fibers[f], f, s.threads); }
    }
    forall k | 0 <= k < |s'.calls|
      ensures LiveOk(s'.calls[k], k, s'.fibers)
    {
      assert LiveOk(s.calls[k], k, s.fibers);
    }
    SlotsStay(s, s');
  }

  /** The fibers in slots go on waiting for the same. */
  lemma SlotsStay(s: State, s': State)
    requires SlotsHeld(s.poll.ctxs, s.fibers, s.calls) && Shrinks(s.poll.ctxs, s'.poll.ctxs)
    requires forall f: nat, fd: nat, ev :: SlotFiber(s.poll.ctxs, fd, ev) == Some(f) && WaitsFor(f, fd, ev, s.fibers, s.calls) ==>
      WaitsFor(f, fd, ev, s'.fibers, s'.calls)
    ensures SlotsHeld(s'.poll.ctxs, s'.fibers, s'.calls)
  {
  }

  lemma MarksLinked(s: State, s': State)
    requires WaitOk(s) && MarksMove(s, s')
    ensures Linked(s'.fibers, s'.calls) && SlotsHeld(s'.poll.ctxs, s'.fibers, s'.calls)
  {
    forall f | 0 <= f < |s'.fibers|
      ensures FiberCallOk(s'.fibers[f], f, s'.calls)
    {
      assert FiberCallOk(s.fibers[f], f, s.calls);
    }
    forall k | 0 <= k < |s'.calls|
      ensures LiveOk(s'.calls[k], k, s'.fibers)
    {
      assert LiveOk(s.calls[k], k, s.fibers);
    }
    SlotsStay(s, s');
  }

  /** A fiber in a slot has its token there. */
  lemma SlotToken(p: PollState, f: nat, fd: nat, ev: Event)
    requires Inv(p) && SlotFiber(p.ctxs, fd, ev) == Some(f)
    ensures Pending(p.ctxs, TaskTok(f)) >= 1 && p.ctxs[fd].events.Has(ev)
  {
    PendingContains(p.ctxs, fd, TaskTok(f));
    assert CtxOk(p.ctxs[fd]) && SlotOk(p.ctxs[fd], ev);
  }

  /** A fiber that runs and has not registered is in no slot. */
  lemma RunningInNoSlot(s: State, t: nat)
    requires RuntimeOk(s) && Runs(s, t) && !s.fibers[Running(s, t)].armed
    ensures forall fd: nat, ev :: SlotFiber(s.poll.ctxs, fd, ev) != Some(Running(s, t))
  {
    var f := Running(s, t);
    RunningFiber(s, t);
    assert Tokens(s, f) == Due(s.fibers, f);
    forall fd: nat, ev
      ensures SlotFiber(s.poll.ctxs, fd, ev) != Some(f)
    {
      if SlotFiber(s.poll.ctxs, fd, ev) == Some(f) { SlotToken(s.poll, f, fd, ev); }
    }
  }

  /** One call and the fiber that makes it change together. */
  lemma PairLinked(fibers: seq<Fiber>, calls: seq<Call>, f: nat, fb: Fiber, k: nat, c: Call)
    requires Linked(fibers, calls) && f < |fibers| && k < |calls| && fibers[f].call == Some(k) && c.fiber == f
    requires fb.call == if c.live then Some(k) else None
    requires FiberCallOk(fb, f, calls[k := c])
    ensures Linked(fibers[f := fb], calls[k := c])
  {
    var fibers', calls' := fibers[f := fb], calls[k := c];
    forall g | 0 <= g < |fibers'|
      ensures FiberCallOk(fibers'[g], g, calls')
    {
      assert FiberCallOk(fibers[g], g, calls) && FiberCallOk(fibers[f], f, calls);
    }
    forall m | 0 <= m < |calls'|
      ensures LiveOk(calls'[m], m, fibers')
    {
      assert LiveOk(calls[m], m, fibers);
    }
  }

  lemma CallLinked(s: State, s': State, t: nat)
    requires RuntimeOk(s) && WaitOk(s) && CallMove(s, s', t)
    ensures Linked(s'.fibers, s'.calls)
  {
    var f := Running(s, t);
    var k := s.fibers[f].call.value;
    RunningFiber(s, t);
    assert FiberCallOk(s.fibers[f], f, s.calls);
    PairLinked(s.fibers, s.calls, f, s'.fibers[f], k, s'.calls[k]);
  }

  lemma CallSlots(s: State, s': State, t: nat)
    requires RuntimeOk(s) && WaitOk(s) && CallMove(s, s', t)
    ensures SlotsHeld(s'.poll.ctxs, s'.fibers, s'.calls)
  {
    var f := Running(s, t);
    var k := s.fibers[f].call.value;
    RunningInNoSlot(s, t);
    forall fd: nat, ev | SlotFiber(s'.poll.ctxs, fd, ev).Some?
      ensures WaitsFor(SlotFiber(s'.poll.ctxs, fd, ev).value, fd, ev, s'.fibers, s'.calls)
    {
      var g := SlotFiber(s'.poll.ctxs, fd, ev).value;
      if g != f {
        assert WaitsFor(g, fd, ev, s.fibers, s.calls) && FiberCallOk(s.fibers[g], g, s.calls) && FiberCallOk(s.fibers[f], f, s.calls);
      }
    }
  }

  lemma BeginLinked(s: State, s': State, t: nat)
    requires RuntimeOk(s) && WaitOk(s) && BeginMove(s, s', t)
    ensures Linked(s'.fibers, s'.calls) && SlotsHeld(s'.poll.ctxs, s'.fibers, s'.calls)
  {
    RunningFiber(s, t);
    forall g | 0 <= g < |s'.fibers|
      ensures FiberCallOk(s'.fibers[g], g, s'.calls)
    {
      assert FiberCallOk(s.fibers[g], g, s.calls);
    }
    forall m | 0 <= m < |s'.calls|
      ensures LiveOk(s'.calls[m], m, s'.fibers)
    {
      if m < |s.calls| { assert LiveOk(s.calls[m], m, s.fibers); }
    }
    SlotsStay(s, s');
  }

  // -------------------------------------------------------------- sleepers and limits

  /** No fiber enters a call, no sleeper appears but fibers outside every call, and no limited call loses its check. */
  lemma ClosuresKeep(s: State, s': State)
    requires WaitOk(s) && |s.fibers| <= |s'.fibers| && |s.calls| == |s'.calls|
    requires forall f :: 0 <= f < |s'.fibers| ==> s'.fibers[f].call.None? || (f < |s.fibers| && s.fibers[f].call.Some?)
    requires forall f: nat :: UnderWay(s', Wake(f)) ==> UnderWay(s, Wake(f)) || (f < |s.fibers| && s.fibers[f].call.None?)
    requires forall k :: 0 <= k < |s.calls| && Limited(s'.calls[k]) ==>
      || s'.calls[k].cancelled || UnderWay(s', Timeout(k))
      || (Limited(s.calls[k]) && !UnderWay(s, Timeout(k)) && (s.calls[k].cancelled ==> s'.calls[k].cancelled))
    ensures SleepersFree(s') && LimitsOk(s')
  {
    forall k | 0 <= k < |s'.calls| && Limited(s'.calls[k])
      ensures Pursued(s', k)
    {
      assert Limited(s.calls[k]) ==> Pursued(s, k);
    }
  }

  ghost predicate PlainMove(s: State, s': State) {
    FibersMove(s, s') || MarksMove(s, s') || PollMove(s, s') || NoMove(s, s')
  }

  /** The steps that leave the system closures as they are. */
  lemma PlainKeeps(s: State, s': State)
    requires RuntimeOk(s) && WaitOk(s) && PlainMove(s, s') && SameClosures(s, s')
    ensures Linked(s'.fibers, s'.calls) && SlotsHeld(s'.poll.ctxs, s'.fibers, s'.calls) && SleepersFree(s') && LimitsOk(s')
  {
    PlainLinked(s, s');
    ClosuresKeep(s, s');
  }

  lemma PlainLinked(s: State, s': State)
    requires RuntimeOk(s) && WaitOk(s) && PlainMove(s, s')
    ensures Linked(s'.fibers, s'.calls) && SlotsHeld(s'.poll.ctxs, s'.fibers, s'.calls)
  {
    if FibersMove(s, s') {
      FibersLinked(s, s');
    } else if MarksMove(s, s') {
      MarksLinked(s, s');
    } else {
      SlotsStay(s, s');
    }
  }

  lemma CallKeeps(s: State, s': State, t: nat)
    requires RuntimeOk(s) && WaitOk(s) && CallMove(s, s', t) && CallClosures(s, s', t)
    ensures Linked(s'.fibers, s'.calls) && SlotsHeld(s'.poll.ctxs, s'.fibers, s'.calls) && SleepersFree(s') && LimitsOk(s')
  {
    CallLinked(s, s', t);
    CallSlots(s, s', t);
    ClosuresKeep(s, s');
  }

  lemma MemberWeight<T>(xs: seq<T>, i: nat, w: T -> nat)
    requires i < |xs|
    ensures w(xs[i]) <= Total(xs, w)
  {
    TotalRemove(xs, i, w);
  }

  /** A fiber without a token is no sleeper. */
  lemma NoWake(s: State, f: nat)
    requires Tokens(s, f) == 0
    ensures !UnderWay(s, Wake(f))
  {
    forall i | 0 <= i < |s.queue|
      ensures s.queue[i].cb != Some(Wake(f))
    {
      MemberWeight(s.queue, i, TaskTok(f));
    }
    forall i | 0 <= i < |s.timers|
      ensures s.timers[i].cb != Wake(f)
    {
      MemberWeight(s.timers, i, TimerTok(f));
    }
    forall t | 0 <= t < |s.threads|
      ensures Wake(f) !in HandClosures(s.threads[t].held)
    {
      MemberWeight(s.threads, t, ThreadTok(f));
      var h := s.threads[t].held;
      if h.RunIdle? && Wake(f) in h.cbs {
        var i :| 0 <= i < |h.cbs| && h.cbs[i] == Wake(f);
        MemberWeight(h.cbs, i, ClosureTok(f));
      }
    }
  }

  lemma BeginKeeps(s: State, s': State, t: nat)
    requires RuntimeOk(s) && WaitOk(s) && BeginMove(s, s', t)
    ensures Linked(s'.fibers, s'.calls) && SlotsHeld(s'.poll.ctxs, s'.fibers, s'.calls) && SleepersFree(s') && LimitsOk(s')
  {
    BeginLinked(s, s', t);
    var f := Running(s, t);
    RunningFiber(s, t);
    assert Tokens(s, f) == Due(s.fibers, f);
    NoWake(s, f);
    forall c: Closure
      ensures UnderWay(s', c) <==> UnderWay(s, c)
    {
    }
    forall k | 0 <= k < |s'.calls| && Limited(s'.calls[k])
      ensures Pursued(s', k)
    {
      assert Limited(s.calls[k]) && Pursued(s, k);
    }
  }

  lemma SleepWaits(s: State, t: nat, ms: nat, addr: nat)
    requires RuntimeOk(s) && WaitOk(s) && Enabled(s, Sleep(t, ms, addr))
    ensures var s' := Step(s, Sleep(t, ms, addr)).state;
      Linked(s'.fibers, s'.calls) && SlotsHeld(s'.poll.ctxs, s'.fibers, s'.calls) && SleepersFree(s') && LimitsOk(s')
  {
    var s' := Step(s, Sleep(t, ms, addr)).state;
    SleepMoves(s, t, ms, addr);
    FibersLinked(s, s');
    ClosuresKeep(s, s');
  }

  lemma ClosureWaits(s: State, t: nat)
    requires RuntimeOk(s) && WaitOk(s) && Enabled(s, RunClosure(t))
    ensures var s' := DoClosure(s, t);
      Linked(s'.fibers, s'.calls) && SlotsHeld(s'.poll.ctxs, s'.fibers, s'.calls) && SleepersFree(s') && LimitsOk(s')
  {
    ClosureMoves(s, t);
    MarksLinked(s, DoClosure(s, t));
    ClosuresKeep(s, DoClosure(s, t));
  }

  // --------------------------------------------------------------------------- flags

  /** No check gets as far as cancelling but by setting its call's flag. */
  ghost predicate RevokesFrom(s: State, s': State) {
    && |s.threads| == |s'.threads|
    && (forall t :: 0 <= t < |s'.threads| && ToRevoke(s'.threads[t]).Some? ==>
          || ToRevoke(s'.threads[t]) == ToRevoke(s.threads[t])
          || (ToRevoke(s'.threads[t]).value < |s'.calls| && s'.calls[ToRevoke(s'.threads[t]).value].cancelled))
    && |s.calls| <= |s'.calls| && forall k :: 0 <= k < |s.calls| && s.calls[k].cancelled ==> s'.calls[k].cancelled
  }

  lemma FlagsKeep(s: State, s': State)
    requires FlagsOk(s.threads, s.calls) && RevokesFrom(s, s')
    ensures FlagsOk(s'.threads, s'.calls)
  {
  }

  /** A thread's step that leaves it with no cancellation to do. */
  lemma HandKeeps(s: State, s': State, t: nat)
    requires RuntimeOk(s) && WaitOk(s) && PlainMove(s, s') && SameClosures(s, s')
    requires t < |s.threads| == |s'.threads| && s'.threads == s.threads[t := s'.threads[t]] && ToRevoke(s'.threads[t]).None?
    ensures WaitOk(s')
  {
    PlainKeeps(s, s');
    FlagsKeep(s, s');
  }

  /** A step that is no thread's. */
  lemma QuietKeeps(s: State, s': State)
    requires RuntimeOk(s) && WaitOk(s) && PlainMove(s, s') && SameClosures(s, s') && s'.threads == s.threads
    ensures WaitOk(s')
  {
    PlainKeeps(s, s');
    FlagsKeep(s, s');
  }

  // ------------------------------------------------------------------------ all steps

  lemma PickWaits(s: State, t: nat)
    requires RuntimeOk(s) && WaitOk(s) && Enabled(s, Pick(t)) && DoPick(s, t).Ok?
    ensures WaitOk(DoPick(s, t).state)
  {
    PickMoves(s, t);
    HandKeeps(s, DoPick(s, t).state, t);
  }

  lemma EnterWaits(s: State, t: nat)
    requires RuntimeOk(s) && WaitOk(s) && Enabled(s, Enter(t)) && DoEnter(s, t).Ok?
    ensures WaitOk(DoEnter(s, t).state)
  {
    EnterMoves(s, t);
    HandKeeps(s, DoEnter(s, t).state, t);
  }

  lemma YieldWaits(s: State, t: nat)
    requires RuntimeOk(s) && WaitOk(s) && Enabled(s, Yield(t)) && DoYield(s, t).Ok?
    ensures WaitOk(DoYield(s, t).state)
  {
    YieldMoves(s, t);
    HandKeeps(s, DoYield(s, t).state, t);
  }

  lemma FinishWaits(s: State, t: nat, threw: bool)
    requires RuntimeOk(s) && WaitOk(s) && Enabled(s, Finish(t, threw))
    ensures WaitOk(Step(s, Finish(t, threw)).state)
  {
    FinishMoves(s, t, threw);
    HandKeeps(s, DoFinish(s, t, threw).state, t);
  }

  lemma RevokeWaits(s: State, t: nat, fails: bool)
    requires RuntimeOk(s) && WaitOk(s) && Enabled(s, RevokeEvent(t, fails)) && DoRevoke(s, t, fails).Ok?
    ensures WaitOk(DoRevoke(s, t, fails).state)
  {
    RevokeMoves(s, t, fails);
    HandKeeps(s, DoRevoke(s, t, fails).state, t);
  }

  lemma ExpireWaits(s: State, t: nat, probe: nat)
    requires RuntimeOk(s) && WaitOk(s) && Enabled(s, IdleExpire(t, probe))
    ensures WaitOk(DoExpire(s, t, probe))
  {
    ExpireMoves(s, t, probe);
    HandKeeps(s, DoExpire(s, t, probe), t);
  }

  lemma ScheduleWaits(s: State, t: nat)
    requires RuntimeOk(s) && WaitOk(s) && Enabled(s, IdleSchedule(t))
    ensures WaitOk(DoSchedule(s, t))
  {
    ScheduleMoves(s, t);
    HandKeeps(s, DoSchedule(s, t), t);
  }

  lemma IdleEndWaits(s: State, t: nat, idle: FState)
    requires RuntimeOk(s) && WaitOk(s) && t < |s.threads| && s.threads[t].held == RunIdle([])
    ensures WaitOk(SetThread(s, t, s.threads[t].(held := Nothing, idle := idle)))
  {
    IdleEndMoves(s, t, idle);
    HandKeeps(s, SetThread(s, t, s.threads[t].(held := Nothing, idle := idle)), t);
  }

  lemma RunClosureWaits(s: State, t: nat)
    requires RuntimeOk(s) && WaitOk(s) && Enabled(s, RunClosure(t))
    ensures WaitOk(DoClosure(s, t))
  {
    ClosureWaits(s, t);
    ClosureMoves(s, t);
    ClosureFlags(s, t);
    FlagsKeep(s, DoClosure(s, t));
  }

  lemma ClosureFlags(s: State, t: nat)
    requires Enabled(s, RunClosure(t))
    ensures RevokesFrom(s, DoClosure(s, t))
  {
  }

  /** The summaries by kind of step. */
  lemma HandPlain(s: State, op: Op)
    requires RuntimeOk(s) && Enabled(s, op) && Step(s, op).Ok? && MovesHand(op)
    ensures PlainMove(s, Step(s, op).state)
  {
    match op
    case Pick(t) => PickMoves(s, t);
    case Enter(t) => EnterMoves(s, t);
    case Yield(t) => YieldMoves(s, t);
    case Finish(t, threw) => FinishMoves(s, t, threw);
    case RunClosure(t) => ClosureMoves(s, t);
    case RevokeEvent(t, fails) => RevokeMoves(s, t, fails);
    case IdleExpire(t, probe) => ExpireMoves(s, t, probe);
    case IdleSchedule(t) => ScheduleMoves(s, t);
    case IdleYield(t) => IdleEndMoves(s, t, HOLD);
    case IdleFinish(t) => IdleEndMoves(s, t, TERM);
  }

  lemma IoMoves(s: State, op: Op)
    requires RuntimeOk(s) && WaitOk(s) && Enabled(s, op) && Step(s, op).Ok?
    requires op.IoTimer? || op.IoRegister? || op.IoResume? || op.IoReturn?
    ensures CallMove(s, Step(s, op).state, op.t)
  {
    RunningCall(s, op.t);
    match op
    case IoTimer(t, addr) => IoTimerMoves(s, t, addr);
    case IoRegister(t, fails) => IoRegisterMoves(s, t, fails);
    case IoResume(t) => IoResumeMoves(s, t);
    case IoReturn(t) => IoReturnMoves(s, t);
  }

  lemma QuietPlain(s: State, op: Op)
    requires RuntimeOk(s) && Enabled(s, op) && Step(s, op).Ok? && !MovesHand(op)
    requires !(op.IoBegin? || op.IoTimer? || op.IoRegister? || op.IoResume? || op.IoReturn?)
    ensures PlainMove(s, Step(s, op).state)
  {
    match op
    case Sleep(t, ms, addr) => SleepMoves(s, t, ms, addr);
    case SpawnFiber(thread) => SpawnFiberMoves(s, thread);
    case Spawn(id, thread) => SpawnMoves(s, id, thread);
    case Tick(ms) => TickMoves(s, ms);
    case AddTimer(addr, ms, id, recurring) => AddTimerMoves(s, addr, ms, id, recurring);
    case _ => PollMoves(s, op);
  }

  lemma HandWaits(s: State, op: Op)
    requires RuntimeOk(s) && WaitOk(s) && Enabled(s, op) && Step(s, op).Ok? && MovesHand(op)
    ensures WaitOk(Step(s, op).state)
  {
    match op
    case Pick(t) => PickWaits(s, t);
    case Enter(t) => EnterWaits(s, t);
    case Yield(t) => YieldWaits(s, t);
    case Finish(t, threw) => FinishWaits(s, t, threw);
    case RunClosure(t) => RunClosureWaits(s, t);
    case RevokeEvent(t, fails) => RevokeWaits(s, t, fails);
    case IdleExpire(t, probe) => ExpireWaits(s, t, probe);
    case IdleSchedule(t) => ScheduleWaits(s, t);
    case IdleYield(t) => IdleEndWaits(s, t, HOLD);
    case IdleFinish(t) => IdleEndWaits(s, t, TERM);
  }

  /** The running fiber's call is live. */
  lemma RunningCall(s: State, t: nat)
    requires RuntimeOk(s) && WaitOk(s) && Runs(s, t) && s.fibers[Running(s, t)].call.Some?
    ensures var k := s.fibers[Running(s, t)].call.value; k < |s.calls| && s.calls[k].live && s.calls[k].fiber == Running(s, t)
  {
    assert FiberCallOk(s.fibers[Running(s, t)], Running(s, t), s.calls);
  }

  lemma CallWaits(s: State, s': State, t: nat)
    requires RuntimeOk(s) && WaitOk(s) && CallMove(s, s', t) && CallClosures(s, s', t) && s'.threads == s.threads
    ensures WaitOk(s')
  {
    CallKeeps(s, s', t);
    FlagsKeep(s, s');
  }

  lemma IoTimerWaits(s: State, t: nat, addr: nat)
    requires RuntimeOk(s) && WaitOk(s) && Enabled(s, IoTimer(t, addr))
    ensures WaitOk(Step(s, IoTimer(t, addr)).state)
  {
    RunningCall(s, t);
    IoTimerMoves(s, t, addr);
    CallWaits(s, Step(s, IoTimer(t, addr)).state, t);
  }

  lemma IoRegisterWaits(s: State, t: nat, fails: bool)
    requires RuntimeOk(s) && WaitOk(s) && Enabled(s, IoRegister(t, fails)) && Step(s, IoRegister(t, fails)).Ok?
    ensures WaitOk(Step(s, IoRegister(t, fails)).state)
  {
    RunningCall(s, t);
    IoRegisterMoves(s, t, fails);
    CallWaits(s, Step(s, IoRegister(t, fails)).state, t);
  }

  lemma IoResumeWaits(s: State, t: nat)
    requires RuntimeOk(s) && WaitOk(s) && Enabled(s, IoResume(t))
    ensures WaitOk(Step(s, IoResume(t)).state)
  {
    RunningCall(s, t);
    IoResumeMoves(s, t);
    CallWaits(s, Step(s, IoResume(t)).state, t);
  }

  lemma IoReturnWaits(s: State, t: nat)
    requires RuntimeOk(s) && WaitOk(s) && Enabled(s, IoReturn(t))
    ensures WaitOk(Step(s, IoReturn(t)).state)
  {
    RunningCall(s, t);
    IoReturnMoves(s, t);
    CallWaits(s, Step(s, IoReturn(t)).state, t);
  }

  lemma BeginWaits(s: State, op: Op)
    requires RuntimeOk(s) && WaitOk(s) && Enabled(s, op) && op.IoBegin?
    ensures WaitOk(Step(s, op).state)
  {
    BeginMoves(s, op.t, op.kind, op.fd, op.ev, op.timeout);
    BeginKeeps(s, Step(s, op).state, op.t);
    FlagsKeep(s, Step(s, op).state);
  }

  lemma SleepStepWaits(s: State, t: nat, ms: nat, addr: nat)
    requires RuntimeOk(s) && WaitOk(s) && Enabled(s, Sleep(t, ms, addr))
    ensures WaitOk(Step(s, Sleep(t, ms, addr)).state)
  {
    SleepWaits(s, t, ms, addr);
    FlagsKeep(s, Step(s, Sleep(t, ms, addr)).state);
  }

  lemma CallStepWaits(s: State, op: Op)
    requires RuntimeOk(s) && WaitOk(s) && Enabled(s, op) && Step(s, op).Ok?
    requires op.IoBegin? || op.IoTimer? || op.IoRegister? || op.IoResume? || op.IoReturn? || op.Sleep?
    ensures WaitOk(Step(s, op).state)
  {
    match op
    case IoBegin(_, _, _, _, _) => BeginWaits(s, op);
    case IoTimer(t, addr) => IoTimerWaits(s, t, addr);
    case IoRegister(t, fails) => IoRegisterWaits(s, t, fails);
    case IoResume(t) => IoResumeWaits(s, t);
    case IoReturn(t) => IoReturnWaits(s, t);
    case Sleep(t, ms, addr) => SleepStepWaits(s, t, ms, addr);
  }

  lemma PollStepWaits(s: State, op: Op)
    requires RuntimeOk(s) && WaitOk(s) && Enabled(s, op) && Step(s, op).Ok?
    requires op.IdleReport? || op.Cancel? || op.CancelEach? || op.AddCallback?
    ensures WaitOk(Step(s, op).state)
  {
    PollMoves(s, op);
    QuietKeeps(s, Step(s, op).state);
  }

  lemma UserStepWaits(s: State, op: Op)
    requires RuntimeOk(s) && WaitOk(s) && Enabled(s, op) && (op.SpawnFiber? || op.Spawn? || op.Tick? || op.AddTimer?)
    ensures WaitOk(Step(s, op).state)
  {
    match op {
      case SpawnFiber(thread) => SpawnFiberMoves(s, thread);
      case Spawn(id, thread) => SpawnMoves(s, id, thread);
      case Tick(ms) => TickMoves(s, ms);
      case AddTimer(addr, ms, id, recurring) => AddTimerMoves(s, addr, ms, id, recurring);
    }
    QuietKeeps(s, Step(s, op).state);
  }

  lemma WaitKeeps(s: State, op: Op)
    requires RuntimeOk(s) && WaitOk(s) && Enabled(s, op) && Step(s, op).Ok?
    ensures WaitOk(Step(s, op).state)
  {
    if MovesHand(op) {
      HandWaits(s, op);
    } else if op.IdleReport? || op.Cancel? || op.CancelEach? || op.AddCallback? {
      PollStepWaits(s, op);
    } else if op.SpawnFiber? || op.Spawn? || op.Tick? || op.AddTimer? {
      UserStepWaits(s, op);
    } else {
      CallStepWaits(s, op);
    }
  }

  // ----------------------------------------------------------------------------- runs

  /** Everything that every reachable state keeps. */
  ghost predicate Good(s: State) {
    RuntimeOk(s) && WaitOk(s) && Conserved(s, One())
  }

  lemma StepGood(s: State, op: Op)
    requires Good(s) && Enabled(s, op) && Step(s, op).Ok?
    ensures Good(Step(s, op).state)
  {
    StepKeeps(s, op);
    StepConserves(s, op, One());
    WaitKeeps(s, op);
  }

  lemma StartWaits(n: nat)
    ensures WaitOk(Start(n))
  {
  }

  lemma {:induction false} RunGood(s: State, ops: seq<Op>, s': State)
    requires Good(s) && Reaches(s, ops, s')
    ensures Good(s')
    decreases |ops|
  {
    if ops != [] {
      StepGood(s, ops[0]);
      RunGood(Step(s, ops[0]).state, ops[1..], s');
    }
  }

  lemma ReachableGood(n: nat, s: State)
    requires Reachable(n, s)
    ensures Good(s)
  {
    var ops :| Reaches(Start(n), ops, s);
    StartOk(n, One());
    StartWaits(n);
    RunGood(Start(n), ops, s);
  }
}
