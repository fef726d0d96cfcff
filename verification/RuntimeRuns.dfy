/** Safety over every run of the runtime: no fiber is lost or run twice, no task is lost
    or duplicated, assertions fail only on misuse, and ETIMEDOUT is reported only for
    a deadline that has passed. */
module RuntimeRuns {
  import opened Prelude
  import opened Tasks
  import opened Poller
  import opened PollerLaws
  import opened Timers
  import opened Runtime
  import opened RuntimeInv
  import opened RuntimeSteps
  import opened RuntimeIo
  import opened RuntimeTimers

  // ------------------------------------------------------------------ assertions

  /** The only ways to fail an assertion: registering an event that is registered already, and a stale report. */
  predicate Misuse(s: State, op: Op) {
    match op
    case AddCallback(fd, ev, _, _) => fd < |s.poll.ctxs| && s.poll.ctxs[fd].events.Has(ev)
    case IoRegister(t, _) =>
      InCall(s, t, Timed) &&
      var c := s.calls[s.fibers[Running(s, t)].call.value];
      c.fd < |s.poll.ctxs| && s.poll.ctxs[c.fd].events.Has(c.ev)
    case IdleReport(_, fd, reported, hangup, fails) =>
      fd < |s.poll.ctxs| && !fails && Stale(s.poll.ctxs[fd], reported, hangup)
    case _ => false
  }

  lemma PickKeeps(s: State, t: nat)
    requires RuntimeOk(s) && Enabled(s, Pick(t))
    ensures Step(s, Pick(t)).Ok? && Shape(Step(s, Pick(t)).state) && Linear(Step(s, Pick(t)).state)
  {
    PickShape(s, t);
    forall f: nat
      ensures Tokens(Step(s, Pick(t)).state, f) == Due(Step(s, Pick(t)).state.fibers, f)
    {
      PickLinear(s, t, f);
    }
  }

  lemma EnterKeeps(s: State, t: nat)
    requires RuntimeOk(s) && Enabled(s, Enter(t))
    ensures Step(s, Enter(t)).Ok? && Shape(Step(s, Enter(t)).state) && Linear(Step(s, Enter(t)).state)
  {
    EnterShape(s, t);
    forall f: nat
      ensures Tokens(Step(s, Enter(t)).state, f) == Due(Step(s, Enter(t)).state.fibers, f)
    {
      EnterLinear(s, t, f);
    }
  }

  lemma YieldKeeps(s: State, t: nat)
    requires RuntimeOk(s) && Enabled(s, Yield(t))
    ensures Step(s, Yield(t)).Ok? && Shape(Step(s, Yield(t)).state) && Linear(Step(s, Yield(t)).state)
  {
    YieldShape(s, t);
    forall f: nat
      ensures Tokens(Step(s, Yield(t)).state, f) == Due(Step(s, Yield(t)).state.fibers, f)
    {
      YieldLinear(s, t, f);
    }
  }

  lemma FinishKeeps(s: State, t: nat, threw: bool)
    requires RuntimeOk(s) && Enabled(s, Finish(t, threw))
    ensures Step(s, Finish(t, threw)).Ok? && Shape(Step(s, Finish(t, threw)).state) && Linear(Step(s, Finish(t, threw)).state)
  {
    FinishShape(s, t, threw);
    forall f: nat
      ensures Tokens(Step(s, Finish(t, threw)).state, f) == Due(Step(s, Finish(t, threw)).state.fibers, f)
    {
      FinishLinear(s, t, threw, f);
    }
  }

  lemma SpawnFiberKeeps(s: State, thread: Option<nat>)
    requires RuntimeOk(s) && Enabled(s, SpawnFiber(thread))
    ensures Step(s, SpawnFiber(thread)).Ok? && Shape(Step(s, SpawnFiber(thread)).state) && Linear(Step(s, SpawnFiber(thread)).state)
  {
    SpawnFiberShape(s, thread);
    forall f: nat
      ensures Tokens(Step(s, SpawnFiber(thread)).state, f) == Due(Step(s, SpawnFiber(thread)).state.fibers, f)
    {
      SpawnFiberLinear(s, thread, f);
    }
  }

  /** A step of a thread that neither schedules nor touches the poller. */
  lemma ThreadStepKeeps(s: State, op: Op)
    requires RuntimeOk(s) && Enabled(s, op)
    requires op.Pick? || op.Enter? || op.Yield? || op.Finish? || op.SpawnFiber?
    ensures Step(s, op).Ok? && Shape(Step(s, op).state) && Linear(Step(s, op).state)
  {
    match op
    case Pick(t) => PickKeeps(s, t);
    case Enter(t) => EnterKeeps(s, t);
    case Yield(t) => YieldKeeps(s, t);
    case Finish(t, threw) => FinishKeeps(s, t, threw);
    case SpawnFiber(thread) => SpawnFiberKeeps(s, thread);
  }

  lemma CallStepKeeps(s: State, op: Op)
    requires RuntimeOk(s) && Enabled(s, op)
    requires op.IoBegin? || op.IoTimer? || op.IoRegister? || op.IoResume? || op.IoReturn? || op.Sleep? || op.RunClosure? || op.RevokeEvent?
    ensures Step(s, op).Failed? <==> Misuse(s, op)
    ensures Step(s, op).Ok? ==> Shape(Step(s, op).state) && Linear(Step(s, op).state)
  {
    match op
    case RunClosure(t) => RunClosureKeeps(s, t);
    case RevokeEvent(t, fails) => RevokeKeeps(s, t, fails);
    case IoBegin(t, kind, fd, ev, timeout) => IoBeginKeeps(s, t, kind, fd, ev, timeout);
    case IoTimer(t, addr) => IoTimerKeeps(s, t, addr);
    case IoRegister(t, fails) => IoRegisterKeeps(s, t, fails);
    case IoResume(t) => IoResumeKeeps(s, t);
    case IoReturn(t) => IoReturnKeeps(s, t);
    case Sleep(t, ms, addr) => SleepKeeps(s, t, ms, addr);
  }

  lemma PollStepKeeps(s: State, op: Op)
    requires RuntimeOk(s) && Enabled(s, op)
    requires op.IdleReport? || op.AddCallback? || op.Cancel? || op.CancelEach?
    ensures Step(s, op).Failed? <==> Misuse(s, op)
    ensures Step(s, op).Ok? ==> Shape(Step(s, op).state) && Linear(Step(s, op).state)
  {
    match op
    case IdleReport(t, fd, reported, hangup, fails) => ReportKeeps(s, fd, reported, hangup, fails);
    case AddCallback(fd, ev, id, fails) => CallbackKeeps(s, fd, ev, id, fails);
    case Cancel(fd, ev, fails) =>
      CancelMoves(s.poll, fd, ev, fails, s.calls);
      InstallKeeps(s, CancelEvent(s.poll, fd, ev, fails));
    case CancelEach(fd, fails) =>
      CancelAllMoves(s.poll, fd, fails, s.calls);
      InstallKeeps(s, CancelAll(s.poll, fd, fails));
  }

  lemma OtherStepKeeps(s: State, op: Op)
    requires RuntimeOk(s) && Enabled(s, op)
    requires op.Tick? || op.Spawn? || op.IdleExpire? || op.IdleSchedule? || op.IdleYield? || op.IdleFinish? || op.AddTimer?
    ensures Step(s, op).Ok? && Shape(Step(s, op).state) && Linear(Step(s, op).state)
  {
    match op
    case Tick(ms) => TickKeeps(s, ms);
    case Spawn(id, thread) => SpawnKeeps(s, id, thread);
    case IdleExpire(t, probe) => ExpireKeeps(s, t, probe);
    case IdleSchedule(t) => ScheduleKeeps(s, t);
    case IdleYield(t) => IdleLeaves(s, t, HOLD);
    case IdleFinish(t) => IdleLeaves(s, t, TERM);
    case AddTimer(addr, ms, id, recurring) => AddTimerKeeps(s, addr, ms, id, recurring);
  }

  /** One step, all invariants: it fails an assertion exactly on misuse and otherwise keeps everything. */
  lemma StepKeeps(s: State, op: Op)
    requires RuntimeOk(s) && Enabled(s, op)
    ensures Step(s, op).Failed? <==> Misuse(s, op)
    ensures Step(s, op).Ok? ==> Shape(Step(s, op).state) && Linear(Step(s, op).state)
  {
    if op.Pick? || op.Enter? || op.Yield? || op.Finish? || op.SpawnFiber? {
      ThreadStepKeeps(s, op);
    } else if op.IdleReport? || op.AddCallback? || op.Cancel? || op.CancelEach? {
      PollStepKeeps(s, op);
    } else if op.Tick? || op.Spawn? || op.IdleExpire? || op.IdleSchedule? || op.IdleYield? || op.IdleFinish? || op.AddTimer? {
      OtherStepKeeps(s, op);
    } else {
      CallStepKeeps(s, op);
    }
  }

  lemma SpawnKeeps(s: State, id: nat, thread: Option<nat>)
    requires RuntimeOk(s)
    ensures var s' := Push(s, Task(None, Some(User(id)), thread)); Shape(s') && Linear(s')
  {
    var task := Task(None, Some(User(id)), thread);
    PushKeeps(s, task);
    forall f: nat
      ensures Tokens(Push(s, task), f) == Due(s.fibers, f)
    {
      assert Tokens(s, f) == Due(s.fibers, f);
      PushTokens(s, task, f);
    }
  }

  lemma InstallKeeps(s: State, o: Outcome)
    requires RuntimeOk(s) && Moves(s.poll, o, s.calls)
    ensures Install(s, o).Ok? && Shape(Install(s, o).state) && Linear(Install(s, o).state)
  {
    MovesKeep(s, o);
    forall f: nat
      ensures Tokens(Install(s, o).state, f) == Due(s.fibers, f)
    {
      assert Tokens(s, f) == Due(s.fibers, f);
    }
  }

  lemma ReportKeeps(s: State, fd: nat, reported: Mask, hangup: bool, fails: bool)
    requires RuntimeOk(s) && fd < |s.poll.ctxs|
    ensures var r := Install(s, Ready(s.poll, fd, reported, hangup, fails));
      && (r.Failed? <==> !fails && Stale(s.poll.ctxs[fd], reported, hangup))
      && (r.Ok? ==> Shape(r.state) && Linear(r.state))
  {
    ReadyLaw(s.poll, fd, reported, hangup, fails, TaskTok(0));
    if Ready(s.poll, fd, reported, hangup, fails).Done? {
      ReadyMoves(s.poll, fd, reported, hangup, fails, s.calls);
      InstallKeeps(s, Ready(s.poll, fd, reported, hangup, fails));
    }
  }

  lemma CallbackKeeps(s: State, fd: nat, ev: Event, id: nat, fails: bool)
    requires RuntimeOk(s)
    ensures fd < |Grown(s.poll.ctxs, fd)|
    ensures var r := Install(s, AddEvent(s.poll, fd, ev, 0, Some(User(id)), fails));
      && (r.Failed? <==> fd < |s.poll.ctxs| && s.poll.ctxs[fd].events.Has(ev))
      && (r.Ok? ==> Shape(r.state) && Linear(r.state))
  {
    AddCallbackKeeps(s, fd, ev, id, fails);
    var r := Install(s, AddEvent(s.poll, fd, ev, 0, Some(User(id)), fails));
    if r.Ok? {
      forall f: nat
        ensures Tokens(r.state, f) == Due(s.fibers, f)
      {
        assert Tokens(s, f) == Due(s.fibers, f);
      }
    }
  }

  // ----------------------------------------------------------------- conservation

  /** The thread whose step `op` is, when the step changes what that thread holds. */
  predicate MovesHand(op: Op) {
    op.Pick? || op.Enter? || op.Yield? || op.Finish? || op.RunClosure? || op.RevokeEvent?
    || op.IdleExpire? || op.IdleSchedule? || op.IdleYield? || op.IdleFinish?
  }

  /** Steps that leave the threads and the finished list alone put the same tasks on queue and record. */
  lemma QuietConserves(s: State, op: Op, w: Task -> nat)
    requires RuntimeOk(s) && Enabled(s, op) && !MovesHand(op) && Step(s, op).Ok? && Conserved(s, w)
    ensures var s' := Step(s, op).state;
      s'.threads == s.threads && s'.active == s.active && Conserved(s', w)
  {
    var s' := Step(s, op).state;
    var added := Added(s, op);
    AppendedBoth(s, op);
    TotalConcat(s.queue, added, w);
    TotalConcat(s.scheduled, added, w);
  }

  /** What a quiet step schedules. */
  function Added(s: State, op: Op): seq<Task>
    requires Enabled(s, op) && Step(s, op).Ok?
  {
    if |s.queue| <= |Step(s, op).state.queue| then Step(s, op).state.queue[|s.queue|..] else []
  }

  lemma AppendedBoth(s: State, op: Op)
    requires Enabled(s, op) && !MovesHand(op) && Step(s, op).Ok?
    ensures var s' := Step(s, op).state;
      && s'.threads == s.threads && s'.active == s.active && s'.finished == s.finished
      && s'.queue == s.queue + Added(s, op) && s'.scheduled == s.scheduled + Added(s, op)
  {
  }

  /** The change of m_activeThreadNum matches the change of what the threads hold. */
  ghost predicate HandCount(s: State, s': State) {
    s'.active - s.active == Total(s'.threads, HeldW(One())) - Total(s.threads, HeldW(One()))
  }

  /** The hand of one thread changes. */
  lemma HandTotals(s: State, s': State, t: nat, w: Task -> nat)
    requires t < |s.threads| == |s'.threads| && s'.threads == s.threads[t := s'.threads[t]]
    ensures Total(s'.threads, HeldW(w)) + HeldWeight(s.threads[t], w) == Total(s.threads, HeldW(w)) + HeldWeight(s'.threads[t], w)
  {
    TotalUpdate(s.threads, t, s'.threads[t], HeldW(w));
  }

  /** What a thread's step does to its hand: it keeps the task, or finishes it and is counted out. */
  ghost predicate KeepsOrFinishes(s: State, s': State, t: nat) {
    && t < |s.threads| && t < |s'.threads|
    && s'.threads == s.threads[t := s'.threads[t]]
    && s.queue <= s'.queue && s'.scheduled == s.scheduled + s'.queue[|s.queue|..]
    && (if HeldTask(s'.threads[t]) == HeldTask(s.threads[t])
        then s'.active == s.active && s'.finished == s.finished
        else HeldTask(s.threads[t]).Some? && HeldTask(s'.threads[t]).None?
             && s'.active == s.active - 1 && s'.finished == s.finished + [HeldTask(s.threads[t]).value])
  }

  lemma FiberHand(s: State, op: Op)
    requires RuntimeOk(s) && Enabled(s, op) && Step(s, op).Ok? && (op.Enter? || op.Yield? || op.Finish?)
    ensures KeepsOrFinishes(s, Step(s, op).state, op.t)
  {
  }

  lemma ClosureHand(s: State, op: Op)
    requires RuntimeOk(s) && Enabled(s, op) && Step(s, op).Ok? && (op.RunClosure? || op.RevokeEvent?)
    ensures KeepsOrFinishes(s, Step(s, op).state, op.t)
  {
  }

  lemma IdleHand(s: State, op: Op)
    requires RuntimeOk(s) && Enabled(s, op) && Step(s, op).Ok?
    requires op.IdleExpire? || op.IdleSchedule? || op.IdleYield? || op.IdleFinish?
    ensures KeepsOrFinishes(s, Step(s, op).state, op.t)
  {
  }

  lemma HandStep(s: State, op: Op, t: nat)
    requires RuntimeOk(s) && Enabled(s, op) && Step(s, op).Ok?
    requires MovesHand(op) && !op.Pick? && op.t == t
    ensures KeepsOrFinishes(s, Step(s, op).state, t)
  {
    if op.Enter? || op.Yield? || op.Finish? {
      FiberHand(s, op);
    } else if op.RunClosure? || op.RevokeEvent? {
      ClosureHand(s, op);
    } else {
      IdleHand(s, op);
    }
  }

  /** What a pick does to the thread's hand: nothing, or the task leaves the queue and is counted in. */
  lemma PickStep(s: State, t: nat)
    requires RuntimeOk(s) && Enabled(s, Pick(t)) && Step(s, Pick(t)).Ok?
    ensures var s' := Step(s, Pick(t)).state;
      var i := FirstEligible(s.queue, s.fibers, t);
      && s'.threads == s.threads[t := s'.threads[t]] && s'.scheduled == s.scheduled && s'.finished == s.finished
      && HeldTask(s.threads[t]).None?
      && (if i < |s.queue|
          then HeldTask(s'.threads[t]) == Some(s.queue[i]) && s'.active == s.active + 1
               && s'.queue == s.queue[..i] + s.queue[i + 1..]
          else HeldTask(s'.threads[t]).None? && s'.active == s.active && s'.queue == s.queue)
  {
  }

  lemma PickConserves(s: State, t: nat, w: Task -> nat)
    requires RuntimeOk(s) && Enabled(s, Pick(t)) && Step(s, Pick(t)).Ok? && Conserved(s, w)
    ensures var s' := Step(s, Pick(t)).state; Conserved(s', w) && HandCount(s, s')
  {
    var s' := Step(s, Pick(t)).state;
    PickStep(s, t);
    HandTotals(s, s', t, w);
    HandTotals(s, s', t, One());
    var i := FirstEligible(s.queue, s.fibers, t);
    if i < |s.queue| {
      TotalRemove(s.queue, i, w);
    }
  }

  lemma HandConserves(s: State, op: Op, t: nat, w: Task -> nat)
    requires RuntimeOk(s) && Enabled(s, op) && Step(s, op).Ok? && Conserved(s, w)
    requires MovesHand(op) && !op.Pick? && op.t == t
    ensures var s' := Step(s, op).state; Conserved(s', w) && HandCount(s, s')
  {
    HandStep(s, op, t);
    HandBalance(s, Step(s, op).state, t, w);
  }

  lemma HandBalance(s: State, s': State, t: nat, w: Task -> nat)
    requires Conserved(s, w) && t < |s.threads| == |s'.threads| && s'.threads == s.threads[t := s'.threads[t]]
    requires s.queue <= s'.queue && s'.scheduled == s.scheduled + s'.queue[|s.queue|..]
    requires if HeldTask(s'.threads[t]) == HeldTask(s.threads[t])
             then s'.active == s.active && s'.finished == s.finished
             else HeldTask(s.threads[t]).Some? && HeldTask(s'.threads[t]).None?
                  && s'.active == s.active - 1 && s'.finished == s.finished + [HeldTask(s.threads[t]).value]
    ensures Conserved(s', w) && HandCount(s, s')
  {
    HandTotals(s, s', t, w);
    HandTotals(s, s', t, One());
    var added := s'.queue[|s.queue|..];
    assert s'.queue == s.queue + added;
    TotalConcat(s.queue, added, w);
    TotalConcat(s.scheduled, added, w);
    if HeldTask(s.threads[t]).Some? {
      TotalAppend(s.finished, HeldTask(s.threads[t]).value, w);
    }
  }

  lemma StepConserves(s: State, op: Op, w: Task -> nat)
    requires RuntimeOk(s) && Enabled(s, op) && Step(s, op).Ok? && Conserved(s, w)
    ensures Conserved(Step(s, op).state, w) && ActiveOk(Step(s, op).state)
  {
    if op.Pick? {
      PickConserves(s, op.t, w);
    } else if MovesHand(op) {
      HandConserves(s, op, op.t, w);
    } else {
      QuietConserves(s, op, w);
    }
  }

  // ------------------------------------------------------------------------- runs

  lemma {:induction false} NobodyHolds(n: nat, w: Task -> nat, f: nat)
    ensures Total(seq(n, _ => Thread(Nothing, None, INIT, true)), HeldW(w)) == 0
    ensures Total(seq(n, _ => Thread(Nothing, None, INIT, true)), ThreadTok(f)) == 0
  {
    var threads := seq(n, _ => Thread(Nothing, None, INIT, true));
    TotalZero(threads, HeldW(w));
    TotalZero(threads, ThreadTok(f));
  }

  lemma StartOk(n: nat, w: Task -> nat)
    ensures RuntimeOk(Start(n)) && Conserved(Start(n), w)
  {
    InitialInv();
    NobodyHolds(n, w, 0);
    NobodyHolds(n, One(), 0);
    forall f: nat
      ensures Tokens(Start(n), f) == 0
    {
      NobodyHolds(n, w, f);
      GrowthIsEmpty([], 32, TaskTok(f));
      assert [] + seq(32, _ => EMPTY_CTX) == INITIAL.ctxs;
    }
  }

  lemma {:induction false} RunKeeps(s: State, ops: seq<Op>, s': State, w: Task -> nat)
    requires RuntimeOk(s) && Conserved(s, w) && Reaches(s, ops, s')
    ensures RuntimeOk(s') && Conserved(s', w)
    decreases |ops|
  {
    if ops != [] {
      StepKeeps(s, ops[0]);
      StepConserves(s, ops[0], w);
      RunKeeps(Step(s, ops[0]).state, ops[1..], s', w);
    }
  }

  /** `s` is a state some run of `n` threads can be in. */
  ghost predicate Reachable(n: nat, s: State) {
    exists ops :: Reaches(Start(n), ops, s)
  }

  lemma ReachableOk(n: nat, s: State, w: Task -> nat)
    requires Reachable(n, s)
    ensures RuntimeOk(s) && Conserved(s, w)
  {
    var ops :| Reaches(Start(n), ops, s);
    StartOk(n, w);
    RunKeeps(Start(n), ops, s, w);
  }

  // ---------------------------------------------------------------------- theorems

  /** Linear wake-ups: a fiber has at most one wake token anywhere; one that is parked or waiting to start has
      exactly one unless a thread has just picked it; one that a thread has in hand, and one that
      ended, has none. */
  lemma WakeUpsAreLinear(n: nat, s: State, f: nat)
    requires Reachable(n, s) && f < |s.fibers|
    ensures Tokens(s, f) <= 1
    ensures s.fibers[f].state == HOLD && Tokens(s, f) == 0 ==>
      exists t :: 0 <= t < |s.threads| && s.threads[t].held.Picked? && s.threads[t].held.task.fiber == Some(f)
    ensures s.fibers[f].state == TERM || s.fibers[f].state == EXCEPT ==> Tokens(s, f) == 0
    ensures s.fibers[f].armed ==> Tokens(s, f) == 1
    ensures s.fibers[f].state == EXEC && !s.fibers[f].armed ==> Tokens(s, f) == 0
  {
    ReachableOk(n, s, One());
    assert Tokens(s, f) == Due(s.fibers, f);
    var fb := s.fibers[f];
    assert FiberOk(fb, f, s.threads);
    if fb.state == HOLD && fb.owner.Some? {
      var t := fb.owner.value;
      assert ThreadOk(s.fibers, s.threads[t], t);
    }
  }

  /** A fiber a thread is about to enter or is running. */
  predicate InHands(th: Thread, f: nat) {
    (th.held.Picked? && th.held.task.fiber == Some(f)) || (th.held.RunFiber? && th.held.fiber == f)
    || (th.held.RunCb? && th.held.fiber == f)
  }

  /** No fiber is run by two threads, and one that has been picked cannot be picked again: it has no token. */
  lemma NoFiberTwice(n: nat, s: State, t: nat, u: nat, f: nat)
    requires Reachable(n, s) && t < |s.threads| && u < |s.threads|
    requires InHands(s.threads[t], f) && InHands(s.threads[u], f)
    ensures t == u
    ensures s.threads[t].held.Picked? ==> Tokens(s, f) == 0
  {
    ReachableOk(n, s, One());
    assert ThreadOk(s.fibers, s.threads[t], t) && ThreadOk(s.fibers, s.threads[u], u);
    assert Tokens(s, f) == Due(s.fibers, f);
  }

  /** A pinned task is only ever in the hands of its thread, and a pick takes the earliest entry that the
      thread may take. */
  lemma PinsAndOrder(n: nat, s: State, t: nat)
    requires Reachable(n, s) && t < |s.threads|
    ensures HeldTask(s.threads[t]).Some? && HeldTask(s.threads[t]).value.thread.Some? ==>
      HeldTask(s.threads[t]).value.thread == Some(t)
    ensures Enabled(s, Pick(t)) ==>
      Step(s, Pick(t)).Ok? &&
      var held := Step(s, Pick(t)).state.threads[t].held;
      if exists i :: 0 <= i < |s.queue| && Eligible(s.fibers, t, s.queue[i])
      then exists i :: 0 <= i < |s.queue| && Eligible(s.fibers, t, s.queue[i]) && held == Picked(s.queue[i])
                       && forall j :: 0 <= j < i ==> !Eligible(s.fibers, t, s.queue[j])
      else !held.Picked?
  {
    ReachableOk(n, s, One());
    assert InHand(s.threads[t], t, s.calls);
    if Enabled(s, Pick(t)) {
      StepKeeps(s, Pick(t));
      var i := FirstEligible(s.queue, s.fibers, t);
      if i < |s.queue| { assert Eligible(s.fibers, t, s.queue[i]); }
    }
  }

  /** In every reachable state a step fails an assertion exactly when it is one of the two misuses; in
      particular fiber.cpp:101, 159, 195, scheduler.cpp:216 and eventpoller.cpp:157, 276 never fail. */
  lemma AssertionsFailOnlyOnMisuse(n: nat, s: State, op: Op)
    requires Reachable(n, s) && Enabled(s, op)
    ensures Step(s, op).Failed? <==> Misuse(s, op)
  {
    ReachableOk(n, s, One());
    StepKeeps(s, op);
  }

  /** At the head of run's loop the reusable callback fiber is absent or fresh and the idle fiber is not executing;
      no fiber is ever READY, and one that executes is in the hands of exactly the thread that owns it. */
  lemma LoopHead(n: nat, s: State, t: nat, f: nat)
    requires Reachable(n, s) && t < |s.threads| && f < |s.fibers|
    ensures s.threads[t].held.Nothing? ==>
      && (s.threads[t].cbFiber.Some? ==> s.threads[t].cbFiber.value < |s.fibers| && s.fibers[s.threads[t].cbFiber.value].state == INIT)
      && s.threads[t].idle != EXEC && s.threads[t].idle != EXCEPT
    ensures s.fibers[f].state != READY
    ensures s.fibers[f].state == EXEC ==>
      s.fibers[f].owner.Some? && s.fibers[f].owner.value < |s.threads| &&
      var th := s.threads[s.fibers[f].owner.value]; InHands(th, f) && !th.held.Picked?
  {
    ReachableOk(n, s, One());
    assert ThreadOk(s.fibers, s.threads[t], t);
    assert FiberOk(s.fibers[f], f, s.threads);
    if s.fibers[f].state == EXEC {
      var u := s.fibers[f].owner.value;
      assert ThreadOk(s.fibers, s.threads[u], u);
    }
  }

  /** A call that reported ETIMEDOUT had a time limit, had one of its own timers handed out, and its limit
      had run out by then. */
  lemma TimeoutsAreSound(n: nat, s: State, k: nat)
    requires Reachable(n, s) && k < |s.calls| && (s.calls[k].timedOut || s.calls[k].cancelled)
    ensures s.calls[k].timeout.Some? && s.calls[k].expired
    ensures s.clock >= s.calls[k].entry + s.calls[k].timeout.value
  {
    ReachableOk(n, s, One());
    assert CallOk(s.calls[k], k, s.clock);
  }

  /** Waking up: the call reports ETIMEDOUT if and only if its own flag is set; otherwise do_io goes back to
      the system call. Its timer is gone from the set either way. */
  lemma WakingUp(n: nat, s: State, t: nat)
    requires Reachable(n, s) && Enabled(s, IoResume(t))
    ensures var f := Running(s, t);
      var k := s.fibers[f].call.value;
      var s' := Step(s, IoResume(t)).state;
      && k < |s'.calls|
      && (s'.calls[k].timedOut <==> s.calls[k].cancelled)
      && (!s.calls[k].cancelled && s.calls[k].kind == Io ==>
            s'.calls[k].stage == Try && s'.fibers[f].call == Some(k) && s'.calls[k].live == s.calls[k].live)
      && (s.calls[k].cancelled || s.calls[k].kind == Connect ==> !s'.calls[k].live && s'.fibers[f].call.None?)
      && (s.calls[k].timer.Some? ==> !Holds(s'.timers, s.calls[k].timer.value.addr))
  {
    ReachableOk(n, s, One());
    var k := s.fibers[Running(s, t)].call.value;
    var c := s.calls[k];
    assert CallOk(c, k, s.clock);
    if c.timer.Some? {
      var h := c.timer.value;
      if Holds(s.timers, h.addr) {
        var i :| 0 <= i < |s.timers| && s.timers[i].addr == h.addr;
        assert s.timers[i] == h;
        EraseKeeps(s.timers, i);
      } else {
        assert Find(s.timers, h.next, h.addr).None?;
      }
    }
  }

  /** delEvent is left out of the runs because it throws the slot's token away: a parked fiber whose event is
      deleted is lost, a callback is not missed. */
  lemma DelEventKeepsLinearIff(n: nat, s: State, fd: nat, ev: Event)
    requires Reachable(n, s) && fd < |s.poll.ctxs| && s.poll.ctxs[fd].events.Has(ev)
    ensures var o := DelEvent(s.poll, fd, ev, false);
      o.Done? && o.ok && (Linear(s.(poll := o.poller)) <==> s.poll.ctxs[fd].Get(ev).fiber.None?)
  {
    ReachableOk(n, s, One());
    var slot := s.poll.ctxs[fd].Get(ev);
    var o := DelEvent(s.poll, fd, ev, false);
    DelEventLaw(s.poll, fd, ev, false, TaskTok(0));
    assert CtxOk(s.poll.ctxs[fd]) && SlotOk(s.poll.ctxs[fd], ev);
    var s' := s.(poll := o.poller);
    if slot.fiber.Some? {
      var f := slot.fiber.value;
      DelEventLaw(s.poll, fd, ev, false, TaskTok(f));
      assert Tokens(s, f) == Due(s.fibers, f);
      assert Tokens(s', f) + 1 == Tokens(s, f);
    } else {
      forall f: nat
        ensures Tokens(s', f) == Due(s'.fibers, f)
      {
        DelEventLaw(s.poll, fd, ev, false, TaskTok(f));
        assert Tokens(s, f) == Due(s.fibers, f);
      }
    }
  }
}
