/** What each step does to the fibers' calls, the slots and the closures that are under way: summaries of the
    steps, from which the invariants of RuntimeWaits follow. */
module RuntimeMoves {
  import opened Prelude
  import opened Tasks
  import opened Poller
  import opened Timers
  import opened Runtime
  import opened RuntimeInv
  import opened RuntimeTimers

  // -------------------------------------------------------------- closures under way

  /** The closures a thread has in hand and has not executed yet. */
  function HandClosures(h: Held): seq<Closure> {
    match h
    case Picked(task) => if task.cb.Some? then [task.cb.value] else []
    case RunCb(_, _, Execute(c)) => [c]
    case RunIdle(cbs) => cbs
    case _ => []
  }

  ghost predicate Queued(queue: seq<Task>, c: Closure) {
    exists i :: 0 <= i < |queue| && queue[i].cb == Some(c)
  }

  ghost predicate InTimers(timers: seq<Rec<Closure>>, c: Closure) {
    exists i :: 0 <= i < |timers| && timers[i].cb == c
  }

  ghost predicate InSomeHand(threads: seq<Thread>, c: Closure) {
    exists t :: 0 <= t < |threads| && c in HandClosures(threads[t].held)
  }

  /** The closure is in the timer set, queued, or in a thread's hands. */
  ghost predicate UnderWay(s: State, c: Closure) {
    InTimers(s.timers, c) || Queued(s.queue, c) || InSomeHand(s.threads, c)
  }

  lemma QueuedAppend(queue: seq<Task>, more: seq<Task>, c: Closure)
    ensures Queued(queue + more, c) <==> Queued(queue, c) || Queued(more, c)
  {
    var all := queue + more;
    forall i | 0 <= i < |queue|
      ensures all[i] == queue[i]
    {
    }
    forall i | 0 <= i < |more|
      ensures all[|queue| + i] == more[i]
    {
    }
  }

  lemma QueuedRemove(queue: seq<Task>, i: nat, c: Closure)
    requires i < |queue|
    ensures Queued(queue, c) <==> Queued(queue[..i] + queue[i + 1..], c) || queue[i].cb == Some(c)
  {
    var q := queue[..i] + queue[i + 1..];
    forall k | 0 <= k < |queue| && k != i
      ensures q[if k < i then k else k - 1] == queue[k]
    {
    }
    forall k | 0 <= k < |q|
      ensures q[k] == queue[if k < i then k else k + 1]
    {
    }
  }

  /** One thread's hand changes. */
  lemma HandChanges(threads: seq<Thread>, t: nat, th: Thread, c: Closure)
    requires t < |threads|
    ensures InSomeHand(threads[t := th], c) && !(c in HandClosures(th.held)) ==> InSomeHand(threads, c)
    ensures InSomeHand(threads, c) && !(c in HandClosures(threads[t].held)) ==> InSomeHand(threads[t := th], c)
    ensures c in HandClosures(th.held) ==> InSomeHand(threads[t := th], c)
    ensures c in HandClosures(threads[t].held) ==> InSomeHand(threads, c)
  {
    var threads' := threads[t := th];
    assert threads'[t] == th;
    forall u | 0 <= u < |threads| && u != t
      ensures threads'[u] == threads[u]
    {
    }
  }

  predicate PlainTasks(tasks: seq<Task>) {
    forall i :: 0 <= i < |tasks| && tasks[i].cb.Some? ==> tasks[i].cb.value.User?
  }

  /** No system closure appears or disappears. */
  ghost predicate SameClosures(s: State, s': State) {
    forall c: Closure :: !c.User? ==> (UnderWay(s', c) <==> UnderWay(s, c))
  }

  /** Plain tasks are queued; timers and hands stay. */
  lemma PushedClosures(s: State, s': State, more: seq<Task>)
    requires s'.queue == s.queue + more && PlainTasks(more) && s'.timers == s.timers && s'.threads == s.threads
    ensures SameClosures(s, s')
  {
    forall c: Closure | !c.User?
      ensures UnderWay(s', c) <==> UnderWay(s, c)
    {
      QueuedAppend(s.queue, more, c);
    }
  }

  /** A hand with no system closure before and after. */
  lemma EmptyHandClosures(s: State, s': State, t: nat, more: seq<Task>)
    requires t < |s.threads| == |s'.threads| && s'.threads == s.threads[t := s'.threads[t]] && s'.timers == s.timers
    requires s'.queue == s.queue + more && PlainTasks(more)
    requires forall c: Closure :: !c.User? ==> c !in HandClosures(s.threads[t].held) && c !in HandClosures(s'.threads[t].held)
    ensures SameClosures(s, s')
  {
    forall c: Closure | !c.User?
      ensures UnderWay(s', c) <==> UnderWay(s, c)
    {
      QueuedAppend(s.queue, more, c);
      HandChanges(s.threads, t, s'.threads[t], c);
    }
  }

  /** The same closures stay in the hand. */
  lemma SameHandClosures(s: State, s': State, t: nat)
    requires t < |s.threads| == |s'.threads| && s'.threads == s.threads[t := s'.threads[t]] && s'.timers == s.timers && s'.queue == s.queue
    requires forall c: Closure :: !c.User? ==> (c in HandClosures(s.threads[t].held) <==> c in HandClosures(s'.threads[t].held))
    ensures SameClosures(s, s')
  {
    forall c: Closure | !c.User?
      ensures UnderWay(s', c) <==> UnderWay(s, c)
    {
      HandChanges(s.threads, t, s'.threads[t], c);
    }
  }

  // ------------------------------------------------------------------- slots, calls

  function SlotFiber(ctxs: seq<Ctx>, fd: nat, ev: Event): Option<nat> {
    if fd < |ctxs| then ctxs[fd].Get(ev).fiber else None
  }

  /** No slot gains a fiber. */
  ghost predicate Shrinks(ctxs: seq<Ctx>, ctxs': seq<Ctx>) {
    forall fd: nat, ev :: SlotFiber(ctxs', fd, ev).Some? ==> SlotFiber(ctxs', fd, ev) == SlotFiber(ctxs, fd, ev)
  }

  /** Fibers change their state or appear, but start or leave no call; one that is in a call is not ended, and goes
      on hold only after arming itself. */
  ghost predicate FibersMove(s: State, s': State) {
    && s'.calls == s.calls && s'.poll == s.poll && |s.fibers| <= |s'.fibers|
    && (forall f :: 0 <= f < |s.fibers| ==>
          && s'.fibers[f].call == s.fibers[f].call
          && (s.fibers[f].call.Some? ==>
                || (s'.fibers[f].state == s.fibers[f].state && s'.fibers[f].armed == s.fibers[f].armed)
                || (s.fibers[f].state != EXEC && s'.fibers[f].state == EXEC)
                || (s.fibers[f].armed && s'.fibers[f].state == HOLD)))
    && forall f :: |s.fibers| <= f < |s'.fibers| ==> s'.fibers[f].call.None?
  }

  /** Calls get their marks: a timer handed out, the flag set. */
  ghost predicate MarksMove(s: State, s': State) {
    && s'.fibers == s.fibers && s'.poll == s.poll && |s'.calls| == |s.calls|
    && forall k :: 0 <= k < |s.calls| ==>
         && s'.calls[k] == s.calls[k].(expired := s'.calls[k].expired, cancelled := s'.calls[k].cancelled)
         && (s.calls[k].cancelled ==> s'.calls[k].cancelled)
  }

  /** The poller hands out work. */
  ghost predicate PollMove(s: State, s': State) {
    s'.fibers == s.fibers && s'.calls == s.calls && Shrinks(s.poll.ctxs, s'.poll.ctxs)
  }

  /** The running fiber's call makes progress: nothing changes but that call, the fiber, its slot and its timer. */
  ghost predicate CallMove(s: State, s': State, t: nat) {
    && Runs(s, t) && |s'.fibers| == |s.fibers| && |s'.calls| == |s.calls|
    && var f := Running(s, t);
      && s'.fibers == s.fibers[f := s'.fibers[f]]
      && !s.fibers[f].armed && s'.fibers[f].state == s.fibers[f].state
      && s.fibers[f].call.Some? && s.fibers[f].call.value < |s.calls|
      && var k := s.fibers[f].call.value;
        var c, c' := s.calls[k], s'.calls[k];
        && s'.calls == s.calls[k := c']
        && c'.fiber == c.fiber && c'.fd == c.fd && c'.ev == c.ev && c'.timeout == c.timeout && c'.cancelled == c.cancelled
        && (c'.live ==> c.live) && s'.fibers[f].call == (if c'.live then Some(k) else None)
        && (s'.fibers[f].armed ==> c'.live && c'.stage == Waiting)
        && (c.stage == Waiting && c.cancelled ==> !c'.live)
        && forall fd: nat, ev :: SlotFiber(s'.poll.ctxs, fd, ev).Some? ==>
             || SlotFiber(s'.poll.ctxs, fd, ev) == SlotFiber(s.poll.ctxs, fd, ev)
             || (SlotFiber(s'.poll.ctxs, fd, ev) == Some(f) && fd == c.fd && ev == c.ev && c'.live && c'.stage == Waiting && c.stage == Timed)
  }

  /** The running fiber begins a call. */
  ghost predicate BeginMove(s: State, s': State, t: nat) {
    && Runs(s, t) && s'.poll == s.poll && s'.queue == s.queue && s'.timers == s.timers && s'.threads == s.threads
    && var f := Running(s, t);
      && s.fibers[f].call.None? && !s.fibers[f].armed
      && s'.fibers == s.fibers[f := s.fibers[f].(call := Some(|s.calls|))]
      && |s'.calls| == |s.calls| + 1 && s'.calls == s.calls + [s'.calls[|s.calls|]]
      && var c := s'.calls[|s.calls|]; c.fiber == f && c.live && c.stage == Try && !c.cancelled
  }

  /** Neither fibers nor calls nor slots are involved. */
  ghost predicate NoMove(s: State, s': State) {
    s'.fibers == s.fibers && s'.calls == s.calls && s'.poll == s.poll
  }

  /** Only the running fiber's own deadline check may appear or disappear; as long as the call goes on waiting with
      a limit, it does not disappear, and a call that has just set its timer has one. */
  ghost predicate CallClosures(s: State, s': State, t: nat)
    requires CallMove(s, s', t)
  {
    var k := s.fibers[Running(s, t)].call.value;
    && (forall c: Closure :: !c.User? && c != Timeout(k) ==> (UnderWay(s', c) <==> UnderWay(s, c)))
    && (s'.calls[k].live && s'.calls[k].timeout.Some? && s'.calls[k].stage != Try && (s.calls[k].stage == Try || UnderWay(s, Timeout(k))) ==>
          UnderWay(s', Timeout(k)))
  }

  // ------------------------------------------------------------------- thread steps

  lemma PickMoves(s: State, t: nat)
    requires RuntimeOk(s) && Enabled(s, Pick(t)) && DoPick(s, t).Ok?
    ensures var s' := DoPick(s, t).state; FibersMove(s, s') && SameClosures(s, s')
  {
    forall c: Closure | !c.User?
      ensures UnderWay(DoPick(s, t).state, c) <==> UnderWay(s, c)
    {
      PickedClosure(s, t, c);
    }
  }

  lemma PickedClosure(s: State, t: nat, c: Closure)
    requires RuntimeOk(s) && Enabled(s, Pick(t)) && DoPick(s, t).Ok? && !c.User?
    ensures UnderWay(DoPick(s, t).state, c) <==> UnderWay(s, c)
  {
    var i := FirstEligible(s.queue, s.fibers, t);
    HandChanges(s.threads, t, DoPick(s, t).state.threads[t], c);
    if i < |s.queue| { QueuedRemove(s.queue, i, c); }
  }

  lemma EnterMoves(s: State, t: nat)
    requires RuntimeOk(s) && Enabled(s, Enter(t)) && DoEnter(s, t).Ok?
    ensures var s' := DoEnter(s, t).state; FibersMove(s, s') && SameClosures(s, s')
  {
    assert ThreadOk(s.fibers, s.threads[t], t) && InHand(s.threads[t], t, s.calls);
    SameHandClosures(s, DoEnter(s, t).state, t);
  }

  lemma YieldMoves(s: State, t: nat)
    requires RuntimeOk(s) && Enabled(s, Yield(t)) && DoYield(s, t).Ok?
    ensures var s' := DoYield(s, t).state; FibersMove(s, s') && SameClosures(s, s')
  {
    assert s.queue + [] == s.queue;
    EmptyHandClosures(s, DoYield(s, t).state, t, []);
  }

  lemma FinishMoves(s: State, t: nat, threw: bool)
    requires RuntimeOk(s) && Enabled(s, Finish(t, threw))
    ensures s.threads[t].held.RunFiber? || s.threads[t].held.RunCb?
    ensures DoFinish(s, t, threw).Ok?
    ensures var s' := DoFinish(s, t, threw).state; FibersMove(s, s') && SameClosures(s, s')
  {
    assert s.queue + [] == s.queue;
    EmptyHandClosures(s, DoFinish(s, t, threw).state, t, []);
  }

  lemma SpawnFiberMoves(s: State, thread: Option<nat>)
    ensures var s' := Step(s, SpawnFiber(thread)).state; FibersMove(s, s') && SameClosures(s, s')
  {
    PushedClosures(s, Step(s, SpawnFiber(thread)).state, [Task(Some(|s.fibers|), None, thread)]);
  }

  /** Only the sleeper's own wake-up appears. */
  lemma SleepMoves(s: State, t: nat, ms: nat, addr: nat)
    requires RuntimeOk(s) && Enabled(s, Sleep(t, ms, addr))
    ensures var s' := Step(s, Sleep(t, ms, addr)).state;
      FibersMove(s, s') && s.fibers[Running(s, t)].call.None?
      && forall c: Closure :: !c.User? && c != Wake(Running(s, t)) ==> (UnderWay(s', c) <==> UnderWay(s, c))
  {
    var r := Rec(addr, ms, s.clock + ms, Wake(Running(s, t)), false);
    SleepFibers(s, t, ms, addr);
    InsertedCbs(s.timers, r);
    TimerAdded(s, Step(s, Sleep(t, ms, addr)).state, r);
  }

  lemma SleepFibers(s: State, t: nat, ms: nat, addr: nat)
    requires Enabled(s, Sleep(t, ms, addr))
    ensures var s' := Step(s, Sleep(t, ms, addr)).state;
      && FibersMove(s, s') && s'.queue == s.queue && s'.threads == s.threads
      && s'.timers == Insert(s.timers, Rec(addr, ms, s.clock + ms, Wake(Running(s, t)), false))
  {
  }

  lemma InsertedCbs(timers: seq<Rec<Closure>>, r: Rec<Closure>)
    ensures forall c :: InTimers(Insert(timers, r), c) <==> InTimers(timers, c) || c == r.cb
  {
    InsertedAt(timers, LowerBound(timers, r.next, r.addr), r);
  }

  lemma InsertedAt(timers: seq<Rec<Closure>>, i: nat, r: Rec<Closure>)
    requires i <= |timers|
    ensures forall c :: InTimers(timers[..i] + [r] + timers[i..], c) <==> InTimers(timers, c) || c == r.cb
  {
    var q := timers[..i] + [r] + timers[i..];
    assert q[i] == r;
    forall k | 0 <= k < |timers|
      ensures q[if k < i then k else k + 1] == timers[k]
    {
    }
    forall k | 0 <= k < |q| && k != i
      ensures q[k] == timers[if k < i then k else k - 1]
    {
    }
  }

  // -------------------------------------------------------------------- other steps

  lemma SpawnMoves(s: State, id: nat, thread: Option<nat>)
    ensures var s' := Step(s, Spawn(id, thread)).state; NoMove(s, s') && SameClosures(s, s')
  {
    PushedClosures(s, Step(s, Spawn(id, thread)).state, [Task(None, Some(User(id)), thread)]);
  }

  lemma TickMoves(s: State, ms: nat)
    ensures var s' := Step(s, Tick(ms)).state; NoMove(s, s') && SameClosures(s, s')
  {
  }

  lemma AddTimerMoves(s: State, addr: nat, ms: nat, id: nat, recurring: bool)
    requires Enabled(s, AddTimer(addr, ms, id, recurring))
    ensures var s' := Step(s, AddTimer(addr, ms, id, recurring)).state; NoMove(s, s') && SameClosures(s, s')
  {
    InsertedCbs(s.timers, Rec(addr, ms, s.clock + ms, User(id), recurring));
  }

  lemma IdleEndMoves(s: State, t: nat, idle: FState)
    requires t < |s.threads| && s.threads[t].held == RunIdle([])
    ensures var s' := SetThread(s, t, s.threads[t].(held := Nothing, idle := idle)); NoMove(s, s') && SameClosures(s, s')
  {
    SameHandClosures(s, SetThread(s, t, s.threads[t].(held := Nothing, idle := idle)), t);
  }

  lemma ScheduleMoves(s: State, t: nat)
    requires Enabled(s, IdleSchedule(t))
    ensures var s' := DoSchedule(s, t); NoMove(s, s') && SameClosures(s, s')
  {
    var cbs := s.threads[t].held.cbs;
    var s' := DoSchedule(s, t);
    forall c: Closure | !c.User?
      ensures UnderWay(s', c) <==> UnderWay(s, c)
    {
      QueuedAppend(s.queue, CbTasks(cbs), c);
      HandChanges(s.threads, t, s'.threads[t], c);
      CbsQueued(cbs, c);
    }
  }

  lemma CbsQueued(cbs: seq<Closure>, c: Closure)
    ensures Queued(CbTasks(cbs), c) <==> c in cbs
  {
    CbTasksAt(cbs);
    if c in cbs {
      var i :| 0 <= i < |cbs| && cbs[i] == c;
      assert CbTasks(cbs)[i].cb == Some(c);
    }
  }

  /** Due timers go into idle's hands; the recurring ones, which are the users', are put back as well. */
  lemma ExpireMoves(s: State, t: nat, probe: nat)
    requires RuntimeOk(s) && Enabled(s, IdleExpire(t, probe))
    ensures var s' := DoExpire(s, t, probe); MarksMove(s, s') && SameClosures(s, s')
  {
    var s' := DoExpire(s, t, probe);
    ExpireKeeps(s, t, probe);
    forall c: Closure | !c.User?
      ensures UnderWay(s', c) <==> UnderWay(s, c)
    {
      HandChanges(s.threads, t, s'.threads[t], c);
      ExpiredCbs(s, probe, c);
    }
  }

  lemma ExpiredCbs(s: State, probe: nat, c: Closure)
    requires Shape(s) && !c.User?
    ensures var due := s.timers[..Cut(s.timers, s.clock, probe)];
      InTimers(s.timers, c) <==> InTimers(Expire(s.timers, s.clock, probe), c) || c in Callbacks(due)
  {
    var due := s.timers[..Cut(s.timers, s.clock, probe)];
    var q := Expire(s.timers, s.clock, probe);
    ExpireSplits(s.timers, s.clock, probe);
    CallbacksAt(due);
    if InTimers(s.timers, c) {
      var i :| 0 <= i < |s.timers| && s.timers[i].cb == c;
      DueOrKept(s, probe, s.timers[i]);
    }
    if InTimers(q, c) { KeptWasThere(s, probe, c); }
    if c in Callbacks(due) {
      var i :| 0 <= i < |due| && Callbacks(due)[i] == c;
      assert s.timers[i].cb == c;
    }
  }

  lemma KeptWasThere(s: State, probe: nat, c: Closure)
    requires Shape(s) && !c.User? && InTimers(Expire(s.timers, s.clock, probe), c)
    ensures InTimers(s.timers, c)
  {
    var due := s.timers[..Cut(s.timers, s.clock, probe)];
    var q := Expire(s.timers, s.clock, probe);
    ExpireSplits(s.timers, s.clock, probe);
    var i :| 0 <= i < |q| && q[i].cb == c;
    assert q[i] in q;
    if IsRearmed(due, s.clock, q[i]) { RearmedIsUser(s, probe, q[i]); }
  }

  lemma RearmedIsUser(s: State, probe: nat, x: Rec<Closure>)
    requires Shape(s) && IsRearmed(s.timers[..Cut(s.timers, s.clock, probe)], s.clock, x)
    ensures x.cb.User?
  {
    var due := s.timers[..Cut(s.timers, s.clock, probe)];
    var r :| r in due && r.recurring && x == r.(next := s.clock + r.ms);
    var j :| 0 <= j < |due| && due[j] == r;
    assert TimerOk(s.timers[j], s.calls, s.addrs);
  }

  lemma DueOrKept(s: State, probe: nat, r: Rec<Closure>)
    requires Shape(s) && r in s.timers
    ensures var due := s.timers[..Cut(s.timers, s.clock, probe)];
      InTimers(Expire(s.timers, s.clock, probe), r.cb) || r.cb in Callbacks(due)
  {
    var due := s.timers[..Cut(s.timers, s.clock, probe)];
    ExpireSplits(s.timers, s.clock, probe);
    CallbacksAt(due);
    if r.next <= s.clock {
      var i :| 0 <= i < |due| && due[i] == r;
      assert Callbacks(due)[i] == r.cb;
    } else {
      var q := Expire(s.timers, s.clock, probe);
      var i :| 0 <= i < |q| && q[i] == r;
    }
  }

  /** A thread's hand loses its one closure, and perhaps a fiber is queued. */
  lemma HandLoses(s: State, s': State, t: nat, c: Closure, more: seq<Task>)
    requires t < |s.threads| == |s'.threads| && s'.threads == s.threads[t := s'.threads[t]] && s'.timers == s.timers
    requires HandClosures(s.threads[t].held) == [c] && HandClosures(s'.threads[t].held) == []
    requires s'.queue == s.queue + more && PlainTasks(more)
    ensures forall d: Closure :: !d.User? && d != c ==> (UnderWay(s', d) <==> UnderWay(s, d))
    ensures !c.User? ==> UnderWay(s, c) && (UnderWay(s', c) ==> UnderWay(s, c))
  {
    forall d: Closure | !d.User?
      ensures d != c ==> (UnderWay(s', d) <==> UnderWay(s, d))
      ensures d == c ==> UnderWay(s, d)
    {
      HandChanges(s.threads, t, s'.threads[t], d);
      QueuedAppend(s.queue, more, d);
    }
  }

  /** Executing a closure takes just that one out of the hand; a deadline check leaves its call flagged or dead. */
  lemma ClosureMoves(s: State, t: nat)
    requires RuntimeOk(s) && Enabled(s, RunClosure(t))
    ensures var s' := DoClosure(s, t);
      var c := s.threads[t].held.todo.c;
      && MarksMove(s, s')
      && (forall d: Closure :: !d.User? && d != c ==> (UnderWay(s', d) <==> UnderWay(s, d)))
      && (!c.User? && UnderWay(s', c) ==> UnderWay(s, c))
      && (c.Timeout? && c.call < |s.calls| ==> s'.calls[c.call].cancelled || !s'.calls[c.call].live)
  {
    var c := s.threads[t].held.todo.c;
    var more := if c.Wake? then [Task(Some(c.fiber), None, None)] else [];
    assert s.queue + [] == s.queue;
    HandLoses(s, DoClosure(s, t), t, c, more);
  }

  // --------------------------------------------------------------------- the poller

  lemma CancelPlain(p: PollState, fd: nat, ev: Event, fails: bool)
    requires SlotsPlain(p.ctxs) && CancelEvent(p, fd, ev, fails).Done?
    ensures var o := CancelEvent(p, fd, ev, fails); PlainTasks(o.tasks) && Shrinks(p.ctxs, o.poller.ctxs)
  {
  }

  lemma CancelAllPlain(p: PollState, fd: nat, fails: bool)
    requires SlotsPlain(p.ctxs) && CancelAll(p, fd, fails).Done?
    ensures var o := CancelAll(p, fd, fails); PlainTasks(o.tasks) && Shrinks(p.ctxs, o.poller.ctxs)
  {
  }

  lemma ReadyPlain(p: PollState, fd: nat, reported: Mask, hangup: bool, fails: bool)
    requires SlotsPlain(p.ctxs) && fd < |p.ctxs| && Ready(p, fd, reported, hangup, fails).Done?
    ensures var o := Ready(p, fd, reported, hangup, fails); PlainTasks(o.tasks) && Shrinks(p.ctxs, o.poller.ctxs)
  {
  }

  /** Registering a callback gives no slot a fiber; registering a fiber gives it to that slot only, or to none. */
  lemma AddSlot(p: PollState, fd: nat, ev: Event, self: nat, cb: Option<Closure>, fails: bool)
    requires fd < |Grown(p.ctxs, fd)| && AddEvent(p, fd, ev, self, cb, fails).Done?
    ensures var o := AddEvent(p, fd, ev, self, cb, fails);
      && (cb.Some? || !o.ok ==> Shrinks(p.ctxs, o.poller.ctxs))
      && (cb.None? && o.ok ==>
            && SlotFiber(o.poller.ctxs, fd, ev) == Some(self)
            && forall d: nat, e :: SlotFiber(o.poller.ctxs, d, e).Some? && (d != fd || e != ev) ==>
                 SlotFiber(o.poller.ctxs, d, e) == SlotFiber(p.ctxs, d, e))
  {
  }

  lemma InstallMoves(s: State, o: Outcome)
    requires o.Done? && PlainTasks(o.tasks) && Shrinks(s.poll.ctxs, o.poller.ctxs)
    ensures var s' := Install(s, o).state; PollMove(s, s') && SameClosures(s, s')
  {
    PushedClosures(s, Install(s, o).state, o.tasks);
  }

  lemma RevokeMoves(s: State, t: nat, fails: bool)
    requires RuntimeOk(s) && Enabled(s, RevokeEvent(t, fails)) && DoRevoke(s, t, fails).Ok?
    ensures var s' := DoRevoke(s, t, fails).state; PollMove(s, s') && SameClosures(s, s')
  {
    var s' := DoRevoke(s, t, fails).state;
    var k := s.threads[t].held.todo.call;
    var more := [];
    if k < |s.calls| {
      CancelPlain(s.poll, s.calls[k].fd, s.calls[k].ev, fails);
      more := CancelEvent(s.poll, s.calls[k].fd, s.calls[k].ev, fails).tasks;
    }
    assert s.queue + [] == s.queue;
    EmptyHandClosures(s, s', t, more);
  }

  lemma PollMoves(s: State, op: Op)
    requires RuntimeOk(s) && Enabled(s, op) && Step(s, op).Ok?
    requires op.IdleReport? || op.Cancel? || op.CancelEach? || op.AddCallback?
    ensures var s' := Step(s, op).state; PollMove(s, s') && SameClosures(s, s')
  {
    match op
    case IdleReport(_, fd, reported, hangup, fails) =>
      ReadyPlain(s.poll, fd, reported, hangup, fails);
      InstallMoves(s, Ready(s.poll, fd, reported, hangup, fails));
    case Cancel(fd, ev, fails) =>
      CancelPlain(s.poll, fd, ev, fails);
      InstallMoves(s, CancelEvent(s.poll, fd, ev, fails));
    case CancelEach(fd, fails) =>
      CancelAllPlain(s.poll, fd, fails);
      InstallMoves(s, CancelAll(s.poll, fd, fails));
    case AddCallback(fd, ev, id, fails) =>
      AddSlot(s.poll, fd, ev, 0, Some(User(id)), fails);
      InstallMoves(s, AddEvent(s.poll, fd, ev, 0, Some(User(id)), fails));
  }

  // --------------------------------------------------------------- the hooked calls

  lemma BeginMoves(s: State, t: nat, kind: Kind, fd: nat, ev: Event, timeout: Option<nat>)
    requires Enabled(s, IoBegin(t, kind, fd, ev, timeout))
    ensures BeginMove(s, Step(s, IoBegin(t, kind, fd, ev, timeout)).state, t)
  {
  }

  lemma RunningFiber(s: State, t: nat)
    requires RuntimeOk(s) && Runs(s, t)
    ensures var f := Running(s, t); s.fibers[f].state == EXEC && s.fibers[f].owner == Some(t)
  {
    assert ThreadOk(s.fibers, s.threads[t], t);
  }

  lemma IoTimerMoves(s: State, t: nat, addr: nat)
    requires RuntimeOk(s) && Enabled(s, IoTimer(t, addr))
    requires var k := s.fibers[Running(s, t)].call.value; s.calls[k].live
    ensures var s' := DoIoTimer(s, s.fibers[Running(s, t)].call.value, addr); CallMove(s, s', t) && CallClosures(s, s', t)
  {
    var k := s.fibers[Running(s, t)].call.value;
    assert s.fibers == s.fibers[Running(s, t) := s.fibers[Running(s, t)]];
    assert CallMove(s, DoIoTimer(s, k, addr), t);
    TimerArmed(s, k, addr);
  }

  lemma TimerArmed(s: State, k: nat, addr: nat)
    requires k < |s.calls|
    ensures var s' := DoIoTimer(s, k, addr);
      forall c :: UnderWay(s', c) <==> UnderWay(s, c) || (s.calls[k].timeout.Some? && c == Timeout(k))
  {
    var ms := s.calls[k].timeout;
    if ms.Some? {
      var r := Rec(addr, ms.value, s.clock + ms.value, Timeout(k), false);
      InsertedCbs(s.timers, r);
      TimerAdded(s, DoIoTimer(s, k, addr), r);
    }
  }

  lemma TimerAdded(s: State, s': State, r: Rec<Closure>)
    requires s'.queue == s.queue && s'.threads == s.threads
    requires forall c :: InTimers(s'.timers, c) <==> InTimers(s.timers, c) || c == r.cb
    ensures forall c :: UnderWay(s', c) <==> UnderWay(s, c) || c == r.cb
  {
  }

  /** Stopping a call's timer takes out that call's deadline check and no other closure. */
  lemma StoppedCbs(s: State, k: nat, c: Closure)
    requires Shape(s) && k < |s.calls| && c != Timeout(k)
    ensures InTimers(StopTimer(s.timers, s.calls[k].timer), c) <==> InTimers(s.timers, c)
  {
    assert CallOk(s.calls[k], k, s.clock);
    if s.calls[k].timer.Some? {
      var h := s.calls[k].timer.value;
      var found := Find(s.timers, h.next, h.addr);
      if found.Some? {
        var i := found.value;
        assert s.timers[i] == h;
        ErasedCbs(s.timers, i, c);
      }
    }
  }

  lemma ErasedCbs(timers: seq<Rec<Closure>>, i: nat, c: Closure)
    requires i < |timers| && timers[i].cb != c
    ensures InTimers(timers[..i] + timers[i + 1..], c) <==> InTimers(timers, c)
  {
    var q := timers[..i] + timers[i + 1..];
    forall k | 0 <= k < |timers| && k != i
      ensures q[if k < i then k else k - 1] == timers[k]
    {
    }
    forall k | 0 <= k < |q|
      ensures q[k] == timers[if k < i then k else k + 1]
    {
    }
  }

  /** Only the call's own timer may go. */
  lemma StoppedClosures(s: State, k: nat, s': State)
    requires Shape(s) && k < |s.calls| && s'.queue == s.queue && s'.threads == s.threads
    requires s'.timers == StopTimer(s.timers, s.calls[k].timer)
    ensures forall c: Closure :: !c.User? && c != Timeout(k) ==> (UnderWay(s', c) <==> UnderWay(s, c))
  {
    forall c: Closure | !c.User? && c != Timeout(k)
      ensures UnderWay(s', c) <==> UnderWay(s, c)
    {
      StoppedCbs(s, k, c);
    }
  }

  lemma IoRegisterMoves(s: State, t: nat, fails: bool)
    requires RuntimeOk(s) && Enabled(s, IoRegister(t, fails)) && Step(s, IoRegister(t, fails)).Ok?
    requires var k := s.fibers[Running(s, t)].call.value; s.calls[k].live && s.calls[k].fiber == Running(s, t)
    ensures var s' := Step(s, IoRegister(t, fails)).state; CallMove(s, s', t) && CallClosures(s, s', t)
  {
    var f := Running(s, t);
    var k := s.fibers[f].call.value;
    var c := s.calls[k];
    var s' := Step(s, IoRegister(t, fails)).state;
    AddSlot(s.poll, c.fd, c.ev, f, None, fails);
    assert CallMove(s, s', t);
    if !s'.calls[k].live { StoppedClosures(s, k, s'); }
  }

  lemma IoResumeMoves(s: State, t: nat)
    requires RuntimeOk(s) && Enabled(s, IoResume(t))
    requires var k := s.fibers[Running(s, t)].call.value; s.calls[k].live
    ensures var s' := DoIoResume(s, Running(s, t), s.fibers[Running(s, t)].call.value); CallMove(s, s', t) && CallClosures(s, s', t)
  {
    var k := s.fibers[Running(s, t)].call.value;
    var s' := DoIoResume(s, Running(s, t), k);
    assert s.fibers == s.fibers[Running(s, t) := s.fibers[Running(s, t)]];
    assert CallMove(s, s', t);
    StoppedClosures(s, k, s');
  }

  lemma IoReturnMoves(s: State, t: nat)
    requires RuntimeOk(s) && Enabled(s, IoReturn(t))
    requires var k := s.fibers[Running(s, t)].call.value; s.calls[k].live
    ensures var s' := Step(s, IoReturn(t)).state; CallMove(s, s', t) && CallClosures(s, s', t)
  {
    assert CallMove(s, Step(s, IoReturn(t)).state, t);
  }
}
