/** Hooked calls over whole runs: a call is the one its fiber began, and what ends its wait. */
module RuntimeCalls {
  import opened Prelude
  import opened Tasks
  import opened Poller
  import opened PollerLaws
  import opened Runtime
  import opened RuntimeInv
  import opened RuntimeRuns
  import opened RuntimeMoves
  import opened RuntimeWaits
  import opened RuntimeLimits

  // ------------------------------------------------------------------ calls as they were begun

  /** What the caller gave, who called and when. */
  datatype Entry = Entry(fiber: nat, kind: Kind, fd: nat, ev: Event, timeout: Option<nat>, clock: nat)

  function EntryOf(c: Call): Entry {
    Entry(c.fiber, c.kind, c.fd, c.ev, c.timeout, c.entry)
  }

  function Begun(s: State, op: Op): seq<Entry>
    requires Enabled(s, op)
  {
    if op.IoBegin? then [Entry(Running(s, op.t), op.kind, op.fd, op.ev, op.timeout, s.clock)] else []
  }

  /** The calls begun by the run that performs `ops` from `s`, in order. */
  function AllBegun(s: State, ops: seq<Op>): seq<Entry>
    decreases |ops|
  {
    if ops == [] || !Enabled(s, ops[0]) || Step(s, ops[0]).Failed? then []
    else Begun(s, ops[0]) + AllBegun(Step(s, ops[0]).state, ops[1..])
  }

  ghost predicate AsBegun(calls: seq<Call>, begun: seq<Entry>) {
    |calls| == |begun| && forall k :: 0 <= k < |calls| ==> EntryOf(calls[k]) == begun[k]
  }

  /** The calls keep what they were begun with; an ended one stays ended. */
  ghost predicate SameEntries(calls: seq<Call>, calls': seq<Call>) {
    |calls| <= |calls'| && forall k :: 0 <= k < |calls| ==>
      EntryOf(calls'[k]) == EntryOf(calls[k]) && (calls'[k].live ==> calls[k].live) && (!calls[k].live ==> calls'[k].timedOut == calls[k].timedOut)
  }

  lemma TaskEntries(s: State, op: Op)
    requires Enabled(s, op) && Step(s, op).Ok? && (op.Pick? || op.Enter? || op.Yield? || op.Finish?)
    ensures Step(s, op).state.calls == s.calls
  {
  }

  lemma IdleEntries(s: State, op: Op)
    requires Enabled(s, op) && Step(s, op).Ok? && (op.RevokeEvent? || op.IdleSchedule? || op.IdleYield? || op.IdleFinish?)
    ensures Step(s, op).state.calls == s.calls
  {
  }

  lemma ClosureEntries(s: State, op: Op)
    requires Enabled(s, op) && op.RunClosure?
    ensures SameEntries(s.calls, Step(s, op).state.calls) && |Step(s, op).state.calls| == |s.calls|
  {
  }

  lemma HandEntries(s: State, op: Op)
    requires Enabled(s, op) && Step(s, op).Ok? && MovesHand(op) && !op.IdleExpire?
    ensures SameEntries(s.calls, Step(s, op).state.calls) && |Step(s, op).state.calls| == |s.calls|
  {
    if op.Pick? || op.Enter? || op.Yield? || op.Finish? {
      TaskEntries(s, op);
    } else if op.RunClosure? {
      ClosureEntries(s, op);
    } else {
      IdleEntries(s, op);
    }
  }

  lemma ExpireEntries(s: State, t: nat, probe: nat)
    requires RuntimeOk(s) && Enabled(s, IdleExpire(t, probe))
    ensures SameEntries(s.calls, DoExpire(s, t, probe).calls) && |DoExpire(s, t, probe).calls| == |s.calls|
  {
    ExpireMoves(s, t, probe);
    ExpireKept(s, t, probe);
  }

  lemma ExpireKept(s: State, t: nat, probe: nat)
    requires t < |s.threads| && MarksMove(s, DoExpire(s, t, probe))
    ensures SameEntries(s.calls, DoExpire(s, t, probe).calls)
  {
  }

  lemma QuietEntries(s: State, op: Op)
    requires RuntimeOk(s) && Enabled(s, op) && Step(s, op).Ok? && !MovesHand(op)
    requires !(op.IoTimer? || op.IoRegister? || op.IoResume? || op.IoReturn?)
    ensures SameEntries(s.calls, Step(s, op).state.calls)
    ensures |Step(s, op).state.calls| == |s.calls| + |Begun(s, op)|
    ensures op.IoBegin? ==> EntryOf(Step(s, op).state.calls[|s.calls|]) == Begun(s, op)[0]
  {
  }

  lemma IoEntries(s: State, op: Op)
    requires Good(s) && Enabled(s, op) && Step(s, op).Ok?
    requires op.IoTimer? || op.IoRegister? || op.IoResume? || op.IoReturn?
    ensures SameEntries(s.calls, Step(s, op).state.calls) && |Step(s, op).state.calls| == |s.calls|
  {
    RunningCall(s, op.t);
    match op
    case IoTimer(t, addr) => TimerEntries(s, s.fibers[Running(s, t)].call.value, addr);
    case IoRegister(t, fails) => RegisterEntries(s, Running(s, t), s.fibers[Running(s, t)].call.value, fails);
    case IoResume(t) => ResumeEntries(s, Running(s, t), s.fibers[Running(s, t)].call.value);
    case IoReturn(t) => ReturnEntries(s, Running(s, t), s.fibers[Running(s, t)].call.value);
  }

  /** One live call changes, and not what it was begun with. */
  lemma OneEntry(calls: seq<Call>, calls': seq<Call>, k: nat)
    requires k < |calls| == |calls'| && calls' == calls[k := calls'[k]] && calls[k].live && EntryOf(calls'[k]) == EntryOf(calls[k])
    ensures SameEntries(calls, calls')
  {
  }

  lemma TimerEntries(s: State, k: nat, addr: nat)
    requires k < |s.calls| && s.calls[k].live
    ensures SameEntries(s.calls, DoIoTimer(s, k, addr).calls) && |DoIoTimer(s, k, addr).calls| == |s.calls|
  {
    OneEntry(s.calls, DoIoTimer(s, k, addr).calls, k);
  }

  lemma RegisterEntries(s: State, f: nat, k: nat, fails: bool)
    requires f < |s.fibers| && k < |s.calls| && s.calls[k].live && s.calls[k].fd < |Grown(s.poll.ctxs, s.calls[k].fd)|
    requires DoIoRegister(s, f, k, fails).Ok?
    ensures var s' := DoIoRegister(s, f, k, fails).state; SameEntries(s.calls, s'.calls) && |s'.calls| == |s.calls|
  {
    OneEntry(s.calls, DoIoRegister(s, f, k, fails).state.calls, k);
  }

  lemma ResumeEntries(s: State, f: nat, k: nat)
    requires f < |s.fibers| && k < |s.calls| && s.calls[k].live
    ensures var s' := DoIoResume(s, f, k); SameEntries(s.calls, s'.calls) && |s'.calls| == |s.calls|
  {
    OneEntry(s.calls, DoIoResume(s, f, k).calls, k);
  }

  lemma ReturnEntries(s: State, f: nat, k: nat)
    requires f < |s.fibers| && k < |s.calls| && s.calls[k].live
    ensures var s' := Leave(s, f, k, s.calls[k]); SameEntries(s.calls, s'.calls) && |s'.calls| == |s.calls|
  {
    OneEntry(s.calls, Leave(s, f, k, s.calls[k]).calls, k);
  }

  lemma StepEntries(s: State, op: Op, begun: seq<Entry>)
    requires Good(s) && Enabled(s, op) && Step(s, op).Ok? && AsBegun(s.calls, begun)
    ensures AsBegun(Step(s, op).state.calls, begun + Begun(s, op))
  {
    if op.IdleExpire? {
      ExpireEntries(s, op.t, op.probe);
    } else if MovesHand(op) {
      HandEntries(s, op);
    } else if op.IoTimer? || op.IoRegister? || op.IoResume? || op.IoReturn? {
      IoEntries(s, op);
    } else {
      QuietEntries(s, op);
    }
  }

  lemma {:induction false} RunEntries(s: State, ops: seq<Op>, s': State, begun: seq<Entry>)
    requires Good(s) && AsBegun(s.calls, begun) && Reaches(s, ops, s')
    ensures AsBegun(s'.calls, begun + AllBegun(s, ops))
    decreases |ops|
  {
    if ops == [] {
      assert begun + [] == begun;
    } else {
      EntriesStep(s, ops[0], begun);
      RunEntries(Step(s, ops[0]).state, ops[1..], s', begun + Begun(s, ops[0]));
      BegunFirst(s, ops, begun);
    }
  }

  lemma EntriesStep(s: State, op: Op, begun: seq<Entry>)
    requires Good(s) && AsBegun(s.calls, begun) && Enabled(s, op) && Step(s, op).Ok?
    ensures Good(Step(s, op).state) && AsBegun(Step(s, op).state.calls, begun + Begun(s, op))
  {
    StepGood(s, op);
    StepEntries(s, op, begun);
  }

  lemma BegunFirst(s: State, ops: seq<Op>, begun: seq<Entry>)
    requires ops != [] && Enabled(s, ops[0]) && Step(s, ops[0]).Ok?
    ensures begun + AllBegun(s, ops) == begun + Begun(s, ops[0]) + AllBegun(Step(s, ops[0]).state, ops[1..])
  {
  }

  /** In every run: there are exactly the calls that fibers began, in that order, each with the descriptor, event and
      limit it was begun with; and the clock at its entry. */
  lemma CallsAreAsBegun(n: nat, ops: seq<Op>, s: State)
    requires Reaches(Start(n), ops, s)
    ensures |s.calls| == |AllBegun(Start(n), ops)|
    ensures forall k :: 0 <= k < |s.calls| ==> EntryOf(s.calls[k]) == AllBegun(Start(n), ops)[k]
  {
    assert Reaches(Start(n), [], Start(n));
    ReachableGood(n, Start(n));
    RunEntries(Start(n), ops, s, []);
    assert [] + AllBegun(Start(n), ops) == AllBegun(Start(n), ops);
  }

  // --------------------------------------------------------------------- what ends a wait

  /** The events of descriptor `fd` that an operation is about: the registered ones among those that a report names, all
      registered ones at a hangup or in cancelAll, the one named in cancelEvent. */
  function About(p: PollState, op: Op): Mask
    requires op.IdleReport? || op.Cancel? || op.CancelEach?
    requires op.fd < |p.ctxs|
  {
    var m := p.ctxs[op.fd].events;
    match op
    case IdleReport(_, _, reported, hangup, _) => Mask(m.read && (hangup || reported.read), m.write && (hangup || reported.write))
    case Cancel(_, ev, _) => if m.Has(ev) then NONE.With(ev) else NONE
    case CancelEach(_, _) => m
  }

  /** What an outcome of the poller does to the whole state. */
  lemma Installed(s: State, s': State, o: Outcome, fd: nat, which: Mask)
    requires o.Done? && Install(s, o) == Ok(s') && fd < |s.poll.ctxs|
    requires Cleared(s.poll, o.poller, fd, which) && o.tasks == WorkFor(s.poll.ctxs[fd], which)
    ensures Cleared(s.poll, s'.poll, fd, which) && s'.queue == s.queue + WorkFor(s.poll.ctxs[fd], which)
    ensures s' == s.(poll := s'.poll, queue := s'.queue, scheduled := s'.scheduled)
  {
  }

  lemma PollEffect(s: State, op: Op)
    requires Shape(s) && Enabled(s, op) && Step(s, op).Ok?
    requires (op.IdleReport? || op.Cancel? || op.CancelEach?) && !op.fails && op.fd < |s.poll.ctxs|
    ensures var s' := Step(s, op).state;
      var which := About(s.poll, op);
      && Cleared(s.poll, s'.poll, op.fd, which) && s'.queue == s.queue + WorkFor(s.poll.ctxs[op.fd], which)
      && s' == s.(poll := s'.poll, queue := s'.queue, scheduled := s'.scheduled)
  {
    var s' := Step(s, op).state;
    match op
    case IdleReport(t, fd, reported, hangup, fails) =>
      ReadyLaw(s.poll, fd, reported, hangup, fails, TaskTok(0));
      ReportDelivers(s.poll, fd, reported, hangup, fails);
      Installed(s, s', Ready(s.poll, fd, reported, hangup, fails), fd, About(s.poll, op));
    case Cancel(fd, ev, fails) =>
      CancelDelivers(s.poll, fd, ev);
      Installed(s, s', CancelEvent(s.poll, fd, ev, fails), fd, About(s.poll, op));
    case CancelEach(fd, fails) =>
      CancelDelivers(s.poll, fd, READ);
      Installed(s, s', CancelAll(s.poll, fd, fails), fd, About(s.poll, op));
  }

  /** In every reachable state: a report, a cancelEvent or a cancelAll that epoll_ctl accepts clears exactly the events
      it is about and queues their work, READ's first; a fiber that waited for one of them is then in no slot, and
      queued. Nothing else changes. */
  lemma EventsEndWaits(n: nat, s: State, op: Op, ev: Event)
    requires Reachable(n, s) && Enabled(s, op) && Step(s, op).Ok?
    requires (op.IdleReport? || op.Cancel? || op.CancelEach?) && !op.fails && op.fd < |s.poll.ctxs|
    ensures var s' := Step(s, op).state;
      var which := About(s.poll, op);
      && Cleared(s.poll, s'.poll, op.fd, which) && s'.queue == s.queue + WorkFor(s.poll.ctxs[op.fd], which)
      && s' == s.(poll := s'.poll, queue := s'.queue, scheduled := s'.scheduled)
      && (which.Has(ev) && SlotFiber(s.poll.ctxs, op.fd, ev).Some? ==>
            var f := SlotFiber(s.poll.ctxs, op.fd, ev).value; InNoSlot(s'.poll.ctxs, f) && FiberQueued(s'.queue, f))
  {
    ReachableGood(n, s);
    PollEffect(s, op);
    if About(s.poll, op).Has(ev) && SlotFiber(s.poll.ctxs, op.fd, ev).Some? {
      var f := SlotFiber(s.poll.ctxs, op.fd, ev).value;
      SlotLeft(s, Step(s, op).state, op.fd, ev, f, About(s.poll, op));
      WorkQueued(s, Step(s, op).state, op.fd, ev, f, About(s.poll, op));
    }
  }

  /** A fiber that waited in the slot waited in no other. */
  lemma SlotLeft(s: State, s': State, fd: nat, ev: Event, f: nat, which: Mask)
    requires Good(s) && Cleared(s.poll, s'.poll, fd, which) && which.Has(ev) && SlotFiber(s.poll.ctxs, fd, ev) == Some(f)
    ensures InNoSlot(s'.poll.ctxs, f)
  {
    assert WaitsFor(f, fd, ev, s.fibers, s.calls);
    forall g: nat, e: Event
      ensures SlotFiber(s'.poll.ctxs, g, e) != Some(f)
    {
      if SlotFiber(s.poll.ctxs, g, e) == Some(f) { assert WaitsFor(f, g, e, s.fibers, s.calls); }
    }
    AnySlot(s'.poll.ctxs, f);
  }

  lemma WorkQueued(s: State, s': State, fd: nat, ev: Event, f: nat, which: Mask)
    requires Shape(s) && fd < |s.poll.ctxs| && which.Has(ev) && which.Minus(s.poll.ctxs[fd].events) == NONE
    requires SlotFiber(s.poll.ctxs, fd, ev) == Some(f) && s'.queue == s.queue + WorkFor(s.poll.ctxs[fd], which)
    ensures FiberQueued(s'.queue, f)
  {
    var c := s.poll.ctxs[fd];
    assert CtxOk(c) && SlotOk(c, ev);
    var work := WorkFor(c, which);
    var i := if ev == WRITE && which.read then 1 else 0;
    assert work[i] == Task(Some(f), None, None);
    assert s'.queue[|s.queue| + i] == work[i];
  }
}
