/** Every task a run asks for, counted from its operations alone, is found again: in an event slot, in idle's hands,
    queued, held by a thread, or finished. */
module RuntimeTasks {
  import opened Prelude
  import opened Tasks
  import opened Poller
  import opened PollerLaws
  import opened Timers
  import opened Runtime
  import opened RuntimeInv
  import opened RuntimeRuns

  // ------------------------------------------------------------------ what is asked for

  /** The weight of a timer's callback, if the timer is due. */
  function DueWeight(r: Rec<Closure>, clock: nat, w: Task -> nat): nat {
    if r.next <= clock then w(Task(None, Some(r.cb), None)) else 0
  }

  function DueW(clock: nat, w: Task -> nat): Rec<Closure> -> nat {
    (r: Rec<Closure>) => DueWeight(r, clock, w)
  }

  /** The tasks one operation asks for: user code schedules a callback or a new fiber, registers a callback or itself
      for an event; every due timer's callback at an expiry; the sleeper at the end of its sleep. */
  ghost function Asks(s: State, op: Op, w: Task -> nat): nat
    requires Enabled(s, op)
  {
    match op
    case Spawn(id, thread) => w(Task(None, Some(User(id)), thread))
    case SpawnFiber(thread) => w(Task(Some(|s.fibers|), None, thread))
    case AddCallback(fd, ev, id, fails) => if fails then 0 else w(Task(None, Some(User(id)), None))
    case IoRegister(t, fails) => if fails then 0 else w(Task(Some(Running(s, t)), None, None))
    case IdleExpire(t, probe) => Total(s.timers, DueW(s.clock, w))
    case RunClosure(t) =>
      var c := s.threads[t].held.todo.c;
      if c.Wake? then w(Task(Some(c.fiber), None, None)) else 0
    case _ => 0
  }

  /** The tasks asked for by the run that performs `ops` from `s`. */
  ghost function Asked(s: State, ops: seq<Op>, w: Task -> nat): nat
    decreases |ops|
  {
    if ops == [] || !Enabled(s, ops[0]) || Step(s, ops[0]).Failed? then 0
    else Asks(s, ops[0], w) + Asked(Step(s, ops[0]).state, ops[1..], w)
  }

  /** How much time the operations let pass. */
  function Elapsed(ops: seq<Op>): nat {
    if ops == [] then 0 else (if ops[0].Tick? then ops[0].ms else 0) + Elapsed(ops[1..])
  }

  // ------------------------------------------------------------------ where it is found

  function CbW(w: Task -> nat): Closure -> nat {
    (c: Closure) => w(Task(None, Some(c), None))
  }

  /** The weight of what a thread's idle fiber has taken out of the timer set and not scheduled yet. */
  ghost function IdleWeight(h: Held, w: Task -> nat): nat {
    if h.RunIdle? then Total(h.cbs, CbW(w)) else 0
  }

  ghost function IdleW(w: Task -> nat): Thread -> nat {
    (th: Thread) => IdleWeight(th.held, w)
  }

  /** Scheduled at some time, or still in a slot or in idle's hands. */
  ghost function Known(s: State, w: Task -> nat): nat {
    Total(s.scheduled, w) + Pending(s.poll.ctxs, w) + Total(s.threads, IdleW(w))
  }

  /** One thread's hand changes, and `more` is scheduled. */
  lemma HandKnown(s: State, s': State, t: nat, more: seq<Task>, w: Task -> nat)
    requires t < |s.threads| == |s'.threads| && s'.threads == s.threads[t := s'.threads[t]]
    requires s'.scheduled == s.scheduled + more
    ensures Known(s', w) + Pending(s.poll.ctxs, w) + IdleWeight(s.threads[t].held, w)
      == Known(s, w) + Pending(s'.poll.ctxs, w) + Total(more, w) + IdleWeight(s'.threads[t].held, w)
  {
    TotalUpdate(s.threads, t, s'.threads[t], IdleW(w));
    TotalConcat(s.scheduled, more, w);
  }

  /** No hand changes. */
  lemma QuietKnown(s: State, s': State, more: seq<Task>, w: Task -> nat)
    requires s'.threads == s.threads && s'.scheduled == s.scheduled + more
    ensures Known(s', w) + Pending(s.poll.ctxs, w) == Known(s, w) + Pending(s'.poll.ctxs, w) + Total(more, w)
  {
    TotalConcat(s.scheduled, more, w);
  }

  lemma ThreadAsks(s: State, op: Op, w: Task -> nat)
    requires RuntimeOk(s) && Enabled(s, op) && Step(s, op).Ok?
    requires op.Pick? || op.Enter? || op.Yield? || op.Finish? || op.IdleYield? || op.IdleFinish?
    ensures Known(Step(s, op).state, w) == Known(s, w)
  {
    var s' := Step(s, op).state;
    assert s.scheduled + [] == s.scheduled;
    if op.Pick? { PickStep(s, op.t); } else { HandStep(s, op, op.t); }
    NoIdleWork(s, op);
    HandKnown(s, s', op.t, [], w);
  }

  lemma NoIdleWork(s: State, op: Op)
    requires Enabled(s, op) && Step(s, op).Ok?
    requires op.Pick? || op.Enter? || op.Yield? || op.Finish? || op.IdleYield? || op.IdleFinish?
    ensures var s' := Step(s, op).state;
      && op.t < |s.threads| == |s'.threads| && s'.scheduled == s.scheduled && s'.poll == s.poll
      && (s.threads[op.t].held.RunIdle? ==> s.threads[op.t].held.cbs == [])
      && (s'.threads[op.t].held.RunIdle? ==> s'.threads[op.t].held.cbs == [])
  {
  }

  lemma ClosureAsks(s: State, t: nat, w: Task -> nat)
    requires RuntimeOk(s) && Enabled(s, RunClosure(t))
    ensures Known(DoClosure(s, t), w) == Known(s, w) + Asks(s, RunClosure(t), w)
  {
    var c := s.threads[t].held.todo.c;
    var more := if c.Wake? then [Task(Some(c.fiber), None, None)] else [];
    assert s.scheduled + [] == s.scheduled;
    HandKnown(s, DoClosure(s, t), t, more, w);
    if c.Wake? { TotalOne(more[0], w); }
  }

  lemma RevokeAsks(s: State, t: nat, fails: bool, w: Task -> nat)
    requires RuntimeOk(s) && Enabled(s, RevokeEvent(t, fails)) && Step(s, RevokeEvent(t, fails)).Ok?
    ensures Known(Step(s, RevokeEvent(t, fails)).state, w) == Known(s, w)
  {
    assert ThreadOk(s.fibers, s.threads[t], t) && InHand(s.threads[t], t, s.calls);
    var c := s.calls[s.threads[t].held.todo.call];
    CancelEventLaw(s.poll, c.fd, c.ev, fails, w);
    HandKnown(s, Step(s, RevokeEvent(t, fails)).state, t, CancelEvent(s.poll, c.fd, c.ev, fails).tasks, w);
  }

  /** The due timers are a prefix of the set. */
  lemma {:induction false} DuePrefix(q: seq<Rec<Closure>>, i: nat, clock: nat, w: Task -> nat)
    requires i <= |q| && (forall k :: 0 <= k < i ==> q[k].next <= clock) && (forall k :: i <= k < |q| ==> q[k].next > clock)
    ensures Total(q, DueW(clock, w)) == Total(Callbacks(q[..i]), CbW(w))
  {
    if i == 0 {
      TotalZero(q, DueW(clock, w));
    } else {
      assert q[..i][1..] == q[1..][..i - 1];
      assert Callbacks(q[..i])[1..] == Callbacks(q[..i][1..]);
      DuePrefix(q[1..], i - 1, clock, w);
    }
  }

  lemma ExpireAsks(s: State, t: nat, probe: nat, w: Task -> nat)
    requires RuntimeOk(s) && Enabled(s, IdleExpire(t, probe))
    ensures Known(DoExpire(s, t, probe), w) == Known(s, w) + Asks(s, IdleExpire(t, probe), w)
  {
    CutIsExact(s.timers, s.clock, probe);
    DuePrefix(s.timers, Cut(s.timers, s.clock, probe), s.clock, w);
    assert s.scheduled + [] == s.scheduled;
    HandKnown(s, DoExpire(s, t, probe), t, [], w);
  }

  lemma {:induction false} CbTasksWeigh(cbs: seq<Closure>, w: Task -> nat)
    ensures Total(CbTasks(cbs), w) == Total(cbs, CbW(w))
  {
    if cbs != [] {
      assert CbTasks(cbs)[1..] == CbTasks(cbs[1..]);
      CbTasksWeigh(cbs[1..], w);
    }
  }

  lemma ScheduleAsks(s: State, t: nat, w: Task -> nat)
    requires Enabled(s, IdleSchedule(t))
    ensures Known(DoSchedule(s, t), w) == Known(s, w)
  {
    var cbs := s.threads[t].held.cbs;
    CbTasksWeigh(cbs, w);
    HandKnown(s, DoSchedule(s, t), t, CbTasks(cbs), w);
  }

  lemma UserAsks(s: State, op: Op, w: Task -> nat)
    requires RuntimeOk(s) && Enabled(s, op) && (op.Spawn? || op.SpawnFiber?)
    ensures Known(Step(s, op).state, w) == Known(s, w) + Asks(s, op, w)
  {
    var task := if op.Spawn? then Task(None, Some(User(op.id)), op.thread) else Task(Some(|s.fibers|), None, op.thread);
    QuietKnown(s, Step(s, op).state, [task], w);
    TotalOne(task, w);
  }

  /** The steps that touch neither the queue nor the slots. */
  lemma PlainAsks(s: State, op: Op, w: Task -> nat)
    requires Enabled(s, op) && Step(s, op).Ok?
    requires op.Tick? || op.IoBegin? || op.IoTimer? || op.IoResume? || op.IoReturn? || op.Sleep? || op.AddTimer?
    ensures Known(Step(s, op).state, w) == Known(s, w)
  {
  }

  /** An outcome of the poller moves work from the slots to the queue. */
  lemma InstallKnown(s: State, o: Outcome, w: Task -> nat)
    requires o.Done? && Pending(s.poll.ctxs, w) == Pending(o.poller.ctxs, w) + Total(o.tasks, w)
    ensures Known(Install(s, o).state, w) == Known(s, w)
  {
    QuietKnown(s, Install(s, o).state, o.tasks, w);
  }

  lemma ReportAsks(s: State, fd: nat, reported: Mask, hangup: bool, fails: bool, w: Task -> nat)
    requires Inv(s.poll) && fd < |s.poll.ctxs| && Ready(s.poll, fd, reported, hangup, fails).Done?
    ensures Known(Install(s, Ready(s.poll, fd, reported, hangup, fails)).state, w) == Known(s, w)
  {
    ReadyLaw(s.poll, fd, reported, hangup, fails, w);
    InstallKnown(s, Ready(s.poll, fd, reported, hangup, fails), w);
  }

  lemma CancelAsks(s: State, fd: nat, ev: Event, fails: bool, w: Task -> nat)
    requires Inv(s.poll)
    ensures CancelEvent(s.poll, fd, ev, fails).Done? && Known(Install(s, CancelEvent(s.poll, fd, ev, fails)).state, w) == Known(s, w)
  {
    CancelEventLaw(s.poll, fd, ev, fails, w);
    InstallKnown(s, CancelEvent(s.poll, fd, ev, fails), w);
  }

  lemma CancelEachAsks(s: State, fd: nat, fails: bool, w: Task -> nat)
    requires Inv(s.poll)
    ensures CancelAll(s.poll, fd, fails).Done? && Known(Install(s, CancelAll(s.poll, fd, fails)).state, w) == Known(s, w)
  {
    CancelAllLaw(s.poll, fd, fails, w);
    InstallKnown(s, CancelAll(s.poll, fd, fails), w);
  }

  lemma PollAsks(s: State, op: Op, w: Task -> nat)
    requires Inv(s.poll) && Enabled(s, op) && Step(s, op).Ok? && (op.IdleReport? || op.Cancel? || op.CancelEach?)
    ensures Known(Step(s, op).state, w) == Known(s, w)
  {
    match op
    case IdleReport(_, fd, reported, hangup, fails) => ReportAsks(s, fd, reported, hangup, fails, w);
    case Cancel(fd, ev, fails) => CancelAsks(s, fd, ev, fails, w);
    case CancelEach(fd, fails) => CancelEachAsks(s, fd, fails, w);
  }

  lemma RegisterAsks(s: State, t: nat, fails: bool, w: Task -> nat)
    requires RuntimeOk(s) && Enabled(s, IoRegister(t, fails)) && Step(s, IoRegister(t, fails)).Ok?
    ensures Known(Step(s, IoRegister(t, fails)).state, w) == Known(s, w) + Asks(s, IoRegister(t, fails), w)
  {
    SlotAsks(s, Running(s, t), s.fibers[Running(s, t)].call.value, fails, w);
  }

  lemma SlotAsks(s: State, f: nat, k: nat, fails: bool, w: Task -> nat)
    requires Inv(s.poll) && f < |s.fibers| && k < |s.calls| && s.calls[k].fd < |Grown(s.poll.ctxs, s.calls[k].fd)|
    requires DoIoRegister(s, f, k, fails).Ok?
    ensures Known(DoIoRegister(s, f, k, fails).state, w) == Known(s, w) + if fails then 0 else w(Task(Some(f), None, None))
  {
    AddEventLaw(s.poll, s.calls[k].fd, s.calls[k].ev, f, None, fails, w);
    assert s.scheduled + [] == s.scheduled;
    QuietKnown(s, DoIoRegister(s, f, k, fails).state, [], w);
  }

  lemma CallbackAsks(s: State, fd: nat, ev: Event, id: nat, fails: bool, w: Task -> nat)
    requires RuntimeOk(s) && Step(s, AddCallback(fd, ev, id, fails)).Ok?
    ensures Known(Step(s, AddCallback(fd, ev, id, fails)).state, w) == Known(s, w) + Asks(s, AddCallback(fd, ev, id, fails), w)
  {
    AddEventLaw(s.poll, fd, ev, 0, Some(User(id)), fails, w);
    QuietKnown(s, Step(s, AddCallback(fd, ev, id, fails)).state, [], w);
  }

  /** Every step adds what it asks for to what is known, and loses nothing. */
  lemma StepAsks(s: State, op: Op, w: Task -> nat)
    requires RuntimeOk(s) && Enabled(s, op) && Step(s, op).Ok?
    ensures Known(Step(s, op).state, w) == Known(s, w) + Asks(s, op, w)
  {
    if op.RunClosure? || op.RevokeEvent? || op.IdleExpire? || op.IdleSchedule? || op.IoRegister? || op.AddCallback? {
      MovingAsks(s, op, w);
    } else if op.Spawn? || op.SpawnFiber? {
      UserAsks(s, op, w);
    } else if op.IdleReport? || op.Cancel? || op.CancelEach? {
      PollAsks(s, op, w);
      AsksNothing(s, op, w);
    } else if op.Pick? || op.Enter? || op.Yield? || op.Finish? || op.IdleYield? || op.IdleFinish? {
      ThreadAsks(s, op, w);
      AsksNothing(s, op, w);
    } else {
      PlainAsks(s, op, w);
      AsksNothing(s, op, w);
    }
  }

  lemma AsksNothing(s: State, op: Op, w: Task -> nat)
    requires Enabled(s, op)
    requires !op.RunClosure? && !op.IdleExpire? && !op.IoRegister? && !op.AddCallback? && !op.Spawn? && !op.SpawnFiber?
    ensures Asks(s, op, w) == 0
  {
  }

  lemma MovingAsks(s: State, op: Op, w: Task -> nat)
    requires RuntimeOk(s) && Enabled(s, op) && Step(s, op).Ok?
    requires op.RunClosure? || op.RevokeEvent? || op.IdleExpire? || op.IdleSchedule? || op.IoRegister? || op.AddCallback?
    ensures Known(Step(s, op).state, w) == Known(s, w) + Asks(s, op, w)
  {
    match op
    case RunClosure(t) => ClosureAsks(s, t, w);
    case RevokeEvent(t, fails) => RevokeAsks(s, t, fails, w);
    case IdleExpire(t, probe) => ExpireAsks(s, t, probe, w);
    case IdleSchedule(t) => ScheduleAsks(s, t, w);
    case IoRegister(t, fails) => RegisterAsks(s, t, fails, w);
    case AddCallback(fd, ev, id, fails) => CallbackAsks(s, fd, ev, id, fails, w);
  }

  lemma StepElapses(s: State, op: Op)
    requires Enabled(s, op) && Step(s, op).Ok?
    ensures Step(s, op).state.clock == s.clock + if op.Tick? then op.ms else 0
  {
  }

  lemma {:induction false} RunAsks(s: State, ops: seq<Op>, s': State, w: Task -> nat)
    requires RuntimeOk(s) && Conserved(s, w) && Reaches(s, ops, s')
    ensures Known(s', w) == Known(s, w) + Asked(s, ops, w)
    ensures s'.clock == s.clock + Elapsed(ops)
    decreases |ops|
  {
    if ops != [] {
      StepKeeps(s, ops[0]);
      StepConserves(s, ops[0], w);
      StepAsks(s, ops[0], w);
      StepElapses(s, ops[0]);
      RunAsks(Step(s, ops[0]).state, ops[1..], s', w);
    }
  }

  /** In every run, each task has been asked for as often as it is in an event slot, in idle's hands, queued, held by a
      thread and finished together; m_activeThreadNum is the number of threads with a task in hand; and the clock
      shows the time that the run let pass. */
  lemma TasksAreConserved(n: nat, ops: seq<Op>, s: State, w: Task -> nat)
    requires Reaches(Start(n), ops, s)
    ensures Asked(Start(n), ops, w)
      == Pending(s.poll.ctxs, w) + Total(s.threads, IdleW(w)) + Total(s.queue, w) + Total(s.threads, HeldW(w)) + Total(s.finished, w)
    ensures Total(s.scheduled, w) == Total(s.queue, w) + Total(s.threads, HeldW(w)) + Total(s.finished, w)
    ensures s.active == Total(s.threads, HeldW(One()))
    ensures s.clock == Elapsed(ops)
  {
    ReachableOk(n, s, w);
    StartOk(n, w);
    RunAsks(Start(n), ops, s, w);
    NothingKnown(n, w);
  }

  lemma NothingKnown(n: nat, w: Task -> nat)
    ensures Known(Start(n), w) == 0
  {
    TotalZero(Start(n).threads, IdleW(w));
    GrowthIsEmpty([], 32, w);
    assert [] + seq(32, _ => EMPTY_CTX) == INITIAL.ctxs;
  }

  /** How often the operations schedule `x` from user code. */
  function Spawned(ops: seq<Op>, x: Task): nat {
    if ops == [] then 0
    else (if ops[0].Spawn? && x == Task(None, Some(User(ops[0].id)), ops[0].thread) then 1 else 0) + Spawned(ops[1..], x)
  }

  lemma {:induction false} PinnedAsked(s: State, ops: seq<Op>, s': State, id: nat, thread: nat)
    requires Reaches(s, ops, s')
    ensures var x := Task(None, Some(User(id)), Some(thread)); Asked(s, ops, Is(x)) == Spawned(ops, x)
    decreases |ops|
  {
    if ops != [] {
      PinnedAsked(Step(s, ops[0]).state, ops[1..], s', id, thread);
      if ops[0].IdleExpire? { TotalZero(s.timers, DueW(s.clock, Is(Task(None, Some(User(id)), Some(thread))))); }
    }
  }

  /** A callback scheduled for a certain thread is found exactly as often as user code scheduled it: queued, in that
      thread's hands, or finished. */
  lemma PinnedCallbacks(n: nat, ops: seq<Op>, s: State, id: nat, thread: nat)
    requires Reaches(Start(n), ops, s)
    ensures var x := Task(None, Some(User(id)), Some(thread));
      Spawned(ops, x) == Total(s.queue, Is(x)) + Total(s.threads, HeldW(Is(x))) + Total(s.finished, Is(x))
  {
    var x := Task(None, Some(User(id)), Some(thread));
    TasksAreConserved(n, ops, s, Is(x));
    PinnedAsked(Start(n), ops, s, id, thread);
    ReachableOk(n, s, Is(x));
    NoPinnedWork(s, x);
  }

  /** Slots and timers hold no pinned work. */
  lemma NoPinnedWork(s: State, x: Task)
    requires x.thread.Some?
    ensures Pending(s.poll.ctxs, Is(x)) == 0 && Total(s.threads, IdleW(Is(x))) == 0
  {
    SlotsUnpinned(s.poll.ctxs, x);
    forall th | th in s.threads
      ensures IdleW(Is(x))(th) == 0
    {
      if th.held.RunIdle? { TotalZero(th.held.cbs, CbW(Is(x))); }
    }
    TotalZero(s.threads, IdleW(Is(x)));
  }

  lemma {:induction false} SlotsUnpinned(ctxs: seq<Ctx>, x: Task)
    requires x.thread.Some?
    ensures Pending(ctxs, Is(x)) == 0
  {
    if ctxs != [] {
      SlotsUnpinned(ctxs[1..], x);
    }
  }
}
