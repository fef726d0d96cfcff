/** Every step of the runtime keeps every invariant, continued: scheduling, the event
    poller, timers and hooked calls. */
module RuntimeIo {
  import opened Prelude
  import opened Tasks
  import opened Poller
  import opened PollerLaws
  import opened Runtime
  import opened RuntimeInv
  import opened RuntimeSteps

  // --------------------------------------------------------------------------- queue

  lemma QueueConcat(a: seq<Task>, b: seq<Task>, calls: seq<Call>)
    requires QueueOk(a, calls) && QueueOk(b, calls)
    ensures QueueOk(a + b, calls)
  {
  }

  lemma PushKeeps(s: State, t: Task)
    requires Shape(s) && TaskOk(t, s.calls)
    ensures Shape(Push(s, t))
  {
    QueueConcat(s.queue, [t], s.calls);
  }

  lemma PushTokens(s: State, t: Task, f: nat)
    ensures t.NonEmpty() ==> Tokens(Push(s, t), f) == Tokens(s, f) + TaskTok(f)(t)
  {
    TotalAppend(s.queue, t, TaskTok(f));
  }

  lemma SpawnFiberShape(s: State, thread: Option<nat>)
    requires RuntimeOk(s)
    ensures Step(s, SpawnFiber(thread)).Ok? && Shape(Step(s, SpawnFiber(thread)).state)
  {
    OwnAppend(s.fibers, s.threads);
    var s1 := s.(fibers := s.fibers + [Fiber(INIT, false, None, None)]);
    assert Shape(s1);
    PushKeeps(s1, Task(Some(|s.fibers|), None, thread));
  }

  lemma SpawnFiberLinear(s: State, thread: Option<nat>, f: nat)
    requires RuntimeOk(s)
    ensures var s' := Step(s, SpawnFiber(thread)).state; Tokens(s', f) == Due(s'.fibers, f)
  {
    assert Tokens(s, f) == Due(s.fibers, f);
    var s1 := s.(fibers := s.fibers + [Fiber(INIT, false, None, None)]);
    assert Tokens(s1, f) == Tokens(s, f);
    PushTokens(s1, Task(Some(|s.fibers|), None, thread), f);
  }

  // -------------------------------------------------------------------- event poller

  ghost predicate SlotPlain(s: Slot) {
    s.cb.Some? ==> s.cb.value.User?
  }

  /** What a set bit hands over is one fiber or one user callback. */
  lemma TakenPlain(c: Ctx, ev: Event, calls: seq<Call>)
    requires CtxOk(c) && c.events.Has(ev) && SlotPlain(c.Get(ev))
    ensures TaskOk(Taken(c.Get(ev)), calls)
    ensures SlotPlain(Trigger(c, ev).Get(ev))
  {
    assert SlotOk(c, ev);
  }

  lemma TriggerAllPlain(c: Ctx, which: Mask, calls: seq<Call>)
    requires CtxOk(c) && which.Minus(c.events) == NONE && SlotPlain(c.read) && SlotPlain(c.write)
    ensures var (c', tasks) := TriggerAll(c, which);
      SlotPlain(c'.read) && SlotPlain(c'.write) && QueueOk(tasks, calls)
  {
    if which.read { TakenPlain(c, READ, calls); }
    if which.write { TakenPlain(c, WRITE, calls); }
  }

  lemma PlainUpdate(ctxs: seq<Ctx>, fd: nat, c: Ctx)
    requires SlotsPlain(ctxs) && fd < |ctxs| && SlotPlain(c.read) && SlotPlain(c.write)
    ensures SlotsPlain(ctxs[fd := c])
  {
  }

  /** An outcome that only moves work from the slots to the queue. */
  ghost predicate Moves(p: PollState, o: Outcome, calls: seq<Call>) {
    && o.Done? && Inv(o.poller) && SlotsPlain(o.poller.ctxs) && QueueOk(o.tasks, calls)
    && (forall f: nat :: Pending(p.ctxs, TaskTok(f)) == Pending(o.poller.ctxs, TaskTok(f)) + Total(o.tasks, TaskTok(f)))
  }

  lemma CancelMoves(p: PollState, fd: nat, ev: Event, fails: bool, calls: seq<Call>)
    requires Inv(p) && SlotsPlain(p.ctxs)
    ensures Moves(p, CancelEvent(p, fd, ev, fails), calls)
  {
    forall f: nat
      ensures var o := CancelEvent(p, fd, ev, fails);
        o.Done? && Inv(o.poller) &&
        Pending(p.ctxs, TaskTok(f)) == Pending(o.poller.ctxs, TaskTok(f)) + Total(o.tasks, TaskTok(f))
    {
      CancelEventLaw(p, fd, ev, fails, TaskTok(f));
    }
    CancelEventLaw(p, fd, ev, fails, TaskTok(0));
    if CancelEvent(p, fd, ev, fails).ok {
      var c := p.ctxs[fd];
      TakenPlain(c, ev, calls);
      PlainUpdate(p.ctxs, fd, Trigger(c, ev));
    }
  }

  lemma CancelAllMoves(p: PollState, fd: nat, fails: bool, calls: seq<Call>)
    requires Inv(p) && SlotsPlain(p.ctxs)
    ensures Moves(p, CancelAll(p, fd, fails), calls)
  {
    forall f: nat
      ensures var o := CancelAll(p, fd, fails);
        o.Done? && Inv(o.poller) &&
        Pending(p.ctxs, TaskTok(f)) == Pending(o.poller.ctxs, TaskTok(f)) + Total(o.tasks, TaskTok(f))
    {
      CancelAllLaw(p, fd, fails, TaskTok(f));
    }
    CancelAllLaw(p, fd, fails, TaskTok(0));
    if CancelAll(p, fd, fails).ok {
      var c := p.ctxs[fd];
      TriggerAllPlain(c, c.events, calls);
      PlainUpdate(p.ctxs, fd, TriggerAll(c, c.events).0);
    }
  }

  lemma ReadyMoves(p: PollState, fd: nat, reported: Mask, hangup: bool, fails: bool, calls: seq<Call>)
    requires Inv(p) && SlotsPlain(p.ctxs) && fd < |p.ctxs|
    requires Ready(p, fd, reported, hangup, fails).Done?
    ensures Moves(p, Ready(p, fd, reported, hangup, fails), calls)
  {
    forall f: nat
      ensures var o := Ready(p, fd, reported, hangup, fails);
        Inv(o.poller) &&
        Pending(p.ctxs, TaskTok(f)) == Pending(o.poller.ctxs, TaskTok(f)) + Total(o.tasks, TaskTok(f))
    {
      ReadyLaw(p, fd, reported, hangup, fails, TaskTok(f));
    }
    ReadyLaw(p, fd, reported, hangup, fails, TaskTok(0));
    var o := Ready(p, fd, reported, hangup, fails);
    if o.ok {
      var c := p.ctxs[fd];
      var hit := Hit(c, reported, hangup);
      TriggerAllPlain(c, hit, calls);
      PlainUpdate(p.ctxs, fd, TriggerAll(c, hit).0);
    }
  }

  lemma MovesKeep(s: State, o: Outcome)
    requires Shape(s) && Moves(s.poll, o, s.calls)
    ensures Install(s, o).Ok? && Shape(Install(s, o).state)
    ensures forall f: nat :: Tokens(Install(s, o).state, f) == Tokens(s, f)
  {
    QueueConcat(s.queue, o.tasks, s.calls);
    forall f: nat
      ensures Tokens(Install(s, o).state, f) == Tokens(s, f)
    {
      TotalConcat(s.queue, o.tasks, TaskTok(f));
    }
  }

  /** Registering `work` for (fd, ev) adds its tokens and nothing else. */
  lemma AddPlain(p: PollState, fd: nat, ev: Event, self: nat, cb: Option<Closure>, fails: bool)
    requires Inv(p) && SlotsPlain(p.ctxs) && (cb.Some? ==> cb.value.User?)
    requires fd < |Grown(p.ctxs, fd)|
    ensures var o := AddEvent(p, fd, ev, self, cb, fails);
      o.Done? ==>
        && Inv(o.poller) && SlotsPlain(o.poller.ctxs) && o.tasks == [] && o.ok == !fails
        && forall f: nat :: Pending(o.poller.ctxs, TaskTok(f)) ==
                            Pending(p.ctxs, TaskTok(f)) + (if o.ok then TaskTok(f)(Work(self, cb)) else 0)
    ensures AddEvent(p, fd, ev, self, cb, fails).Abort? <==> fd < |p.ctxs| && p.ctxs[fd].events.Has(ev)
    ensures AddEvent(p, fd, ev, self, cb, fails).Abort? ==> AddEvent(p, fd, ev, self, cb, fails).line == 137
  {
    var o := AddEvent(p, fd, ev, self, cb, fails);
    AddEventLaw(p, fd, ev, self, cb, fails, TaskTok(0));
    if o.Done? {
      forall f: nat
        ensures Pending(o.poller.ctxs, TaskTok(f)) ==
                Pending(p.ctxs, TaskTok(f)) + (if o.ok then TaskTok(f)(Work(self, cb)) else 0)
      {
        AddEventLaw(p, fd, ev, self, cb, fails, TaskTok(f));
      }
      AddSlots(p, fd, ev, self, cb, fails);
    }
  }

  lemma AddSlots(p: PollState, fd: nat, ev: Event, self: nat, cb: Option<Closure>, fails: bool)
    requires Inv(p) && SlotsPlain(p.ctxs) && (cb.Some? ==> cb.value.User?)
    requires fd < |Grown(p.ctxs, fd)| && AddEvent(p, fd, ev, self, cb, fails).Done?
    ensures SlotsPlain(AddEvent(p, fd, ev, self, cb, fails).poller.ctxs)
  {
    GrownKeeps(p.ctxs, fd, TaskTok(0));
    var ctxs := Grown(p.ctxs, fd);
    forall k | 0 <= k < |ctxs|
      ensures SlotPlain(ctxs[k].read) && SlotPlain(ctxs[k].write)
    {
      if k < |p.ctxs| { assert ctxs[k] == p.ctxs[k]; }
    }
    if AddEvent(p, fd, ev, self, cb, fails).ok {
      var slot := if cb.Some? then Slot(true, None, cb) else Slot(true, Some(self), None);
      PlainUpdate(ctxs, fd, ctxs[fd].(events := ctxs[fd].events.With(ev)).Set(ev, slot));
    }
  }

  lemma AddCallbackKeeps(s: State, fd: nat, ev: Event, id: nat, fails: bool)
    requires RuntimeOk(s)
    ensures fd < |Grown(s.poll.ctxs, fd)|
    ensures var r := Install(s, AddEvent(s.poll, fd, ev, 0, Some(User(id)), fails));
      && (r.Failed? <==> fd < |s.poll.ctxs| && s.poll.ctxs[fd].events.Has(ev))
      && (r.Failed? ==> r.site == PollerLine(137))
      && (r.Ok? ==> Shape(r.state) && forall f: nat :: Tokens(r.state, f) == Tokens(s, f))
  {
    GrownKeeps(s.poll.ctxs, fd, TaskTok(0));
    AddPlain(s.poll, fd, ev, 0, Some(User(id)), fails);
    if AddEvent(s.poll, fd, ev, 0, Some(User(id)), fails).Done? {
      assert s.queue + [] == s.queue;
    }
  }

  // ------------------------------------------------------------------ system closures

  /** A thread goes on to `todo`, which is user code or what follows its system closure. */
  lemma TodoMoves(s: State, t: nat, todo: Todo)
    requires RuntimeOk(s) && t < |s.threads| && s.threads[t].held.RunCb? && !s.threads[t].held.todo.UserCode?
    requires todo == UserCode || (todo.Revoke? && s.threads[t].held.task.cb == Some(Timeout(todo.call)))
    ensures var th := s.threads[t];
      var s1 := SetThread(s, t, th.(held := th.held.(todo := todo)));
      && Shape(s1)
      && forall f: nat :: Tokens(s1, f) + ThreadTok(f)(th) == Tokens(s, f)
  {
    var th := s.threads[t];
    var th' := th.(held := th.held.(todo := todo));
    assert ThreadOk(s.fibers, th, t) && InHand(th, t, s.calls);
    forall g | 0 <= g < |s.fibers| && s.fibers[g].owner == Some(t)
      ensures Has(th', g)
    {
      assert FiberOk(s.fibers[g], g, s.threads);
    }
    OwnThread(s.fibers, s.threads, t, th');
    HandsUpdate(s.threads, s.calls, t, th');
    forall f: nat
      ensures Tokens(SetThread(s, t, th'), f) + ThreadTok(f)(th) == Tokens(s, f)
    {
      TotalUpdate(s.threads, t, th', ThreadTok(f));
    }
  }

  /** Setting the flag of a call whose deadline check is being executed. */
  lemma CancelledKeeps(s: State, k: nat)
    requires Shape(s) && k < |s.calls| && s.calls[k].expired
    ensures Shape(SetCall(s, k, s.calls[k].(cancelled := true)))
  {
    GrowsKeeps(s, s.calls[k := s.calls[k].(cancelled := true)]);
  }

  /** A sleep closure puts its fiber into the queue. */
  lemma WakeKeeps(s: State, t: nat, w: nat)
    requires RuntimeOk(s) && Enabled(s, RunClosure(t)) && s.threads[t].held.todo == Execute(Wake(w))
    ensures Step(s, RunClosure(t)) == Ok(DoClosure(s, t))
    ensures var s' := DoClosure(s, t);
      && Shape(s') && Linear(s') && s'.fibers == s.fibers
      && s'.queue == s.queue + [Task(Some(w), None, None)]
  {
    TodoMoves(s, t, UserCode);
    var s1 := SetThread(s, t, s.threads[t].(held := s.threads[t].held.(todo := UserCode)));
    var wake := Task(Some(w), None, None);
    PushKeeps(s1, wake);
    forall f: nat
      ensures Tokens(Push(s1, wake), f) == Due(s.fibers, f)
    {
      assert Tokens(s, f) == Due(s.fibers, f);
      PushTokens(s1, wake, f);
    }
  }

  /** A deadline check sets its own call's flag if that is live and not flagged yet, and nothing else; the
      cancellation is then still to come. */
  lemma TimeoutKeeps(s: State, t: nat, k: nat)
    requires RuntimeOk(s) && Enabled(s, RunClosure(t)) && s.threads[t].held.todo == Execute(Timeout(k))
    ensures Step(s, RunClosure(t)) == Ok(DoClosure(s, t))
    ensures k < |s.calls| && s.calls[k].expired
    ensures var s' := DoClosure(s, t);
      var flags := s.calls[k].live && !s.calls[k].cancelled;
      && Shape(s') && Linear(s')
      && s'.calls == (if flags then s.calls[k := s.calls[k].(cancelled := true)] else s.calls)
      && s'.threads[t].held.todo == (if flags then Revoke(k) else UserCode)
      && s'.fibers == s.fibers && s'.poll == s.poll && s'.queue == s.queue && s'.timers == s.timers
  {
    var th := s.threads[t];
    assert ThreadOk(s.fibers, th, t) && InHand(th, t, s.calls);
    var todo := if s.calls[k].live && !s.calls[k].cancelled then Revoke(k) else UserCode;
    TodoMoves(s, t, todo);
    var s1 := SetThread(s, t, th.(held := th.held.(todo := todo)));
    if todo.Revoke? { CancelledKeeps(s1, k); }
    forall f: nat
      ensures Tokens(DoClosure(s, t), f) == Due(s.fibers, f)
    {
      assert Tokens(s, f) == Due(s.fibers, f);
      assert Tokens(DoClosure(s, t), f) == Tokens(s1, f);
    }
  }

  lemma RunClosureKeeps(s: State, t: nat)
    requires RuntimeOk(s) && Enabled(s, RunClosure(t))
    ensures Shape(DoClosure(s, t)) && Linear(DoClosure(s, t))
  {
    var th := s.threads[t];
    assert ThreadOk(s.fibers, th, t) && InHand(th, t, s.calls);
    match th.held.todo.c
    case User(_) =>
      TodoMoves(s, t, UserCode);
      forall f: nat
        ensures Tokens(DoClosure(s, t), f) == Due(s.fibers, f)
      {
        assert Tokens(s, f) == Due(s.fibers, f);
      }
    case Wake(w) => WakeKeeps(s, t, w);
    case Timeout(k) => TimeoutKeeps(s, t, k);
  }

  /** The cancellation moves at most one slot's work to the queue. */
  lemma RevokeKeeps(s: State, t: nat, fails: bool)
    requires RuntimeOk(s) && Enabled(s, RevokeEvent(t, fails))
    ensures Step(s, RevokeEvent(t, fails)) == DoRevoke(s, t, fails)
    ensures s.threads[t].held.todo.call < |s.calls|
    ensures var r := DoRevoke(s, t, fails);
      r.Ok? && Shape(r.state) && Linear(r.state) && r.state.fibers == s.fibers && r.state.calls == s.calls
  {
    var th := s.threads[t];
    assert ThreadOk(s.fibers, th, t) && InHand(th, t, s.calls);
    var k := th.held.todo.call;
    TodoMoves(s, t, UserCode);
    var s1 := SetThread(s, t, th.(held := th.held.(todo := UserCode)));
    CancelMoves(s.poll, s.calls[k].fd, s.calls[k].ev, fails, s.calls);
    MovesKeep(s1, CancelEvent(s.poll, s.calls[k].fd, s.calls[k].ev, fails));
    forall f: nat
      ensures Tokens(DoRevoke(s, t, fails).state, f) == Due(s.fibers, f)
    {
      assert Tokens(s, f) == Due(s.fibers, f);
      assert Tokens(s1, f) == Tokens(s, f);
    }
  }
}
