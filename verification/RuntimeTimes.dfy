/** Every timer of a run is due exactly when the operation that made it says, and so are the ends of sleeps and of
    time limits. */
module RuntimeTimes {
  import opened Prelude
  import opened Tasks
  import opened Poller
  import opened PollerLaws
  import opened Timers
  import opened Runtime
  import opened RuntimeInv
  import opened RuntimeTimers
  import opened RuntimeRuns
  import opened RuntimeMoves
  import opened RuntimeWaits

  // ------------------------------------------------------------- what a run sets in motion

  /** The timer an operation makes: a wait with a time limit and a sleep run from now on, and so does a user's timer. */
  function Made(s: State, op: Op): seq<Rec<Closure>>
    requires Enabled(s, op)
  {
    match op
    case IoTimer(t, addr) =>
      var k := s.fibers[Running(s, t)].call.value;
      var limit := s.calls[k].timeout;
      if limit.None? then [] else [Rec(addr, limit.value, s.clock + limit.value, Timeout(k), false)]
    case Sleep(t, ms, addr) => [Rec(addr, ms, s.clock + ms, Wake(Running(s, t)), false)]
    case AddTimer(addr, ms, id, recurring) => [Rec(addr, ms, s.clock + ms, User(id), recurring)]
    case _ => []
  }

  /** The timers made by the run that performs `ops` from `s`, in order. */
  function AllMade(s: State, ops: seq<Op>): seq<Rec<Closure>>
    decreases |ops|
  {
    if ops == [] || !Enabled(s, ops[0]) || Step(s, ops[0]).Failed? then []
    else Made(s, ops[0]) + AllMade(Step(s, ops[0]).state, ops[1..])
  }

  /** The last timer made for a closure. */
  function LastFor(made: seq<Rec<Closure>>, c: Closure): Option<Rec<Closure>> {
    if made == [] then None
    else if made[|made| - 1].cb == c then Some(made[|made| - 1])
    else LastFor(made[..|made| - 1], c)
  }

  lemma LastAppend(made: seq<Rec<Closure>>, r: Rec<Closure>, c: Closure)
    ensures LastFor(made + [r], c) == if r.cb == c then Some(r) else LastFor(made, c)
  {
    assert (made + [r])[..|made|] == made;
  }

  lemma {:induction false} LastIsMade(made: seq<Rec<Closure>>, c: Closure)
    ensures LastFor(made, c).Some? ==> LastFor(made, c).value in made && LastFor(made, c).value.cb == c
  {
    if made != [] { LastIsMade(made[..|made| - 1], c); }
  }

  // --------------------------------------------------------------------- the invariant

  /** `r` in the set is `c` as it was made, or a recurring one that has come round. */
  predicate Comes(c: Rec<Closure>, r: Rec<Closure>) {
    if c.recurring then r == c.(next := r.next) && c.next <= r.next else r == c
  }

  ghost predicate Origin(made: seq<Rec<Closure>>, r: Rec<Closure>) {
    exists c :: c in made && Comes(c, r)
  }

  ghost predicate InSet(timers: seq<Rec<Closure>>, c: Rec<Closure>) {
    exists r :: r in timers && Comes(c, r)
  }

  /** A deadline check whose call does not wait for it any more. */
  predicate Dropped(calls: seq<Call>, c: Rec<Closure>) {
    c.cb.Timeout? && c.cb.call < |calls| &&
    var k := calls[c.cb.call]; !k.live || k.stage == Try || k.timer != Some(c)
  }

  /** A timer made is in the set, unless it was a one-shot and its time has come, or its call has dropped it. */
  ghost predicate Accounted(s: State, c: Rec<Closure>) {
    InSet(s.timers, c) || (!c.recurring && c.next <= s.clock) || Dropped(s.calls, c)
  }

  ghost predicate TimersOkWith(s: State, made: seq<Rec<Closure>>) {
    && (forall r :: r in s.timers ==> Origin(made, r))
    && (forall c :: c in made ==> c.addr in s.addrs && (c.cb.Timeout? ==> c.cb.call < |s.calls|) && Accounted(s, c))
  }

  /** A call's handle is on the last timer it made; and a call with one handed out made one whose time has come. */
  ghost predicate CallsOkWith(s: State, made: seq<Rec<Closure>>) {
    forall k :: 0 <= k < |s.calls| ==>
      && (s.calls[k].timer.Some? ==> s.calls[k].timer == LastFor(made, Timeout(k)))
      && (s.calls[k].expired ==> exists c :: c in made && c.cb == Timeout(k) && c.next <= s.clock)
  }

  /** A wake-up that is under way belongs to its fiber's last sleep, and waits for the end of it. */
  ghost predicate NapsOk(s: State, made: seq<Rec<Closure>>) {
    forall f: nat :: UnderWay(s, Wake(f)) ==>
      LastFor(made, Wake(f)).Some? &&
      var c := LastFor(made, Wake(f)).value; !c.recurring && (c in s.timers || c.next <= s.clock)
  }

  ghost predicate TimesOk(s: State, made: seq<Rec<Closure>>) {
    TimersOkWith(s, made) && CallsOkWith(s, made) && NapsOk(s, made)
  }

  // ----------------------------------------------------------------- two kinds of changes

  /** What the calls keep in steps that make no timer and hand none out. */
  ghost predicate CallsSteady(calls: seq<Call>, calls': seq<Call>) {
    && |calls| <= |calls'|
    && (forall k :: 0 <= k < |calls| ==>
          && (calls'[k].timer == calls[k].timer || calls'[k].timer.None?) && calls'[k].expired == calls[k].expired
          && (calls'[k].live ==> calls[k].live)
          && (calls[k].stage == Try ==> calls'[k].stage == Try || !calls'[k].live || calls'[k].timer.None?))
    && forall k :: |calls| <= k < |calls'| ==> calls'[k].timer.None? && !calls'[k].expired
  }

  /** No wake-up comes under way. */
  ghost predicate WakesStay(s: State, s': State) {
    forall f: nat :: UnderWay(s', Wake(f)) ==> UnderWay(s, Wake(f))
  }

  /** Time may go by, and a call may drop its timer. */
  ghost predicate Steady(s: State, s': State) {
    && CallsSteady(s.calls, s'.calls) && s'.addrs == s.addrs && s.clock <= s'.clock && WakesStay(s, s')
    && (forall r :: r in s'.timers ==> r in s.timers)
    && forall r :: r in s.timers && r !in s'.timers ==> !r.recurring && Dropped(s'.calls, r) && !r.cb.Wake?
  }

  lemma SteadyKeeps(s: State, s': State, made: seq<Rec<Closure>>)
    requires TimesOk(s, made) && Steady(s, s')
    ensures TimesOk(s', made)
  {
    forall c | c in made
      ensures Accounted(s', c)
    {
      assert Accounted(s, c);
      if InSet(s.timers, c) {
        var r: Rec<Closure> :| r in s.timers && Comes(c, r);
        if r !in s'.timers { assert r == c; }
      }
    }
    forall f: nat | UnderWay(s', Wake(f))
      ensures LastFor(made, Wake(f)).Some?
      ensures var c := LastFor(made, Wake(f)).value; !c.recurring && (c in s'.timers || c.next <= s'.clock)
    {
      LastIsMade(made, Wake(f));
    }
  }

  /** A new timer joins the set. */
  ghost predicate Adds(s: State, s': State, c: Rec<Closure>) {
    && c.addr !in s.addrs && s'.addrs == s.addrs + {c.addr} && s'.clock == s.clock
    && (forall r :: r in s'.timers <==> r in s.timers || r == c)
    && |s'.calls| == |s.calls| && (c.cb.Timeout? ==> c.cb.call < |s.calls|) && (c.cb.Wake? ==> !c.recurring && !UnderWay(s, c.cb))
    && (forall k :: 0 <= k < |s.calls| && c.cb != Timeout(k) ==> s'.calls[k] == s.calls[k])
    && (c.cb.Timeout? ==>
          s'.calls[c.cb.call].timer == Some(c) && s'.calls[c.cb.call].expired == s.calls[c.cb.call].expired)
    && forall f: nat :: UnderWay(s', Wake(f)) ==> UnderWay(s, Wake(f)) || c.cb == Wake(f)
  }

  lemma AddsKeeps(s: State, s': State, made: seq<Rec<Closure>>, c: Rec<Closure>)
    requires TimesOk(s, made) && Adds(s, s', c)
    ensures TimesOk(s', made + [c])
  {
    forall x: Closure
      ensures LastFor(made + [c], x) == if c.cb == x then Some(c) else LastFor(made, x)
    {
      LastAppend(made, c, x);
    }
    assert c in made + [c] && Comes(c, c);
    MadeTimers(s, s', made, c);
    forall f: nat | UnderWay(s', Wake(f)) && c.cb != Wake(f)
      ensures LastFor(made, Wake(f)).Some?
      ensures var d := LastFor(made, Wake(f)).value; !d.recurring && (d in s'.timers || d.next <= s'.clock)
    {
    }
    forall k | 0 <= k < |s'.calls| && s'.calls[k].expired
      ensures exists d :: d in made + [c] && d.cb == Timeout(k) && d.next <= s'.clock
    {
      var d :| d in made && d.cb == Timeout(k) && d.next <= s.clock;
      assert d in made + [c];
    }
  }

  lemma MadeTimers(s: State, s': State, made: seq<Rec<Closure>>, c: Rec<Closure>)
    requires TimersOkWith(s, made) && Adds(s, s', c)
    ensures TimersOkWith(s', made + [c])
  {
    assert Comes(c, c);
    forall d | d in made
      ensures Accounted(s', d)
    {
      assert Accounted(s, d);
      if InSet(s.timers, d) {
        var r: Rec<Closure> :| r in s.timers && Comes(d, r);
        assert r in s'.timers;
      }
    }
    forall r | r in s.timers
      ensures Origin(made + [c], r)
    {
      var d :| d in made && Comes(d, r);
      assert d in made + [c];
    }
    assert c in made + [c] && c in s'.timers;
  }

  // ------------------------------------------------------------------------- the steps

  /** Timers, clock and addresses stay as they are. */
  ghost predicate SameTimers(s: State, s': State) {
    s'.timers == s.timers && s'.addrs == s.addrs && s'.clock == s.clock && CallsSteady(s.calls, s'.calls)
  }

  lemma TaskTimers(s: State, op: Op)
    requires Enabled(s, op) && Step(s, op).Ok? && (op.Pick? || op.Enter? || op.Yield? || op.Finish?)
    ensures SameTimers(s, Step(s, op).state)
  {
  }

  lemma ClosureTimers(s: State, op: Op)
    requires Enabled(s, op) && Step(s, op).Ok? && (op.RunClosure? || op.RevokeEvent?)
    ensures SameTimers(s, Step(s, op).state)
  {
  }

  lemma IdleTimers(s: State, op: Op)
    requires Enabled(s, op) && Step(s, op).Ok? && (op.IdleSchedule? || op.IdleYield? || op.IdleFinish?)
    ensures SameTimers(s, Step(s, op).state)
  {
  }

  lemma HandWakes(s: State, op: Op)
    requires RuntimeOk(s) && Enabled(s, op) && Step(s, op).Ok? && MovesHand(op) && !op.IdleExpire?
    ensures WakesStay(s, Step(s, op).state)
  {
    match op
    case Pick(t) => PickMoves(s, t);
    case Enter(t) => EnterMoves(s, t);
    case Yield(t) => YieldMoves(s, t);
    case Finish(t, threw) => FinishMoves(s, t, threw);
    case RunClosure(t) => ClosureWakes(s, t);
    case RevokeEvent(t, fails) => RevokeMoves(s, t, fails);
    case IdleSchedule(t) => ScheduleMoves(s, t);
    case IdleYield(t) => IdleEndMoves(s, t, HOLD);
    case IdleFinish(t) => IdleEndMoves(s, t, TERM);
  }

  lemma ClosureWakes(s: State, t: nat)
    requires RuntimeOk(s) && Enabled(s, RunClosure(t))
    ensures WakesStay(s, DoClosure(s, t))
  {
    ClosureMoves(s, t);
  }

  lemma HandSteady(s: State, op: Op)
    requires RuntimeOk(s) && Enabled(s, op) && Step(s, op).Ok? && MovesHand(op) && !op.IdleExpire?
    ensures Steady(s, Step(s, op).state)
  {
    HandWakes(s, op);
    if op.Pick? || op.Enter? || op.Yield? || op.Finish? {
      TaskTimers(s, op);
    } else if op.RunClosure? || op.RevokeEvent? {
      ClosureTimers(s, op);
    } else {
      IdleTimers(s, op);
    }
    SameIsSteady(s, Step(s, op).state);
  }

  lemma SameIsSteady(s: State, s': State)
    requires SameTimers(s, s') && WakesStay(s, s')
    ensures Steady(s, s')
  {
  }

  /** The steps of the poller, of user code and of the clock, but for new timers. */
  lemma QuietSteady(s: State, op: Op)
    requires RuntimeOk(s) && Enabled(s, op) && Step(s, op).Ok?
    requires op.IdleReport? || op.Cancel? || op.CancelEach? || op.AddCallback? || op.SpawnFiber? || op.Spawn? || op.Tick?
    ensures Steady(s, Step(s, op).state)
  {
    if op.SpawnFiber? {
      SpawnFiberMoves(s, op.thread);
    } else if op.Spawn? {
      SpawnMoves(s, op.id, op.thread);
    } else if op.Tick? {
      TickMoves(s, op.ms);
    } else {
      PollMoves(s, op);
    }
  }

  lemma BeginSteady(s: State, op: Op)
    requires RuntimeOk(s) && Enabled(s, op) && op.IoBegin?
    ensures Steady(s, Step(s, op).state)
  {
    BeginMoves(s, op.t, op.kind, op.fd, op.ev, op.timeout);
  }

  lemma NotHeld(s: State, addr: nat)
    requires RuntimeOk(s) && addr !in s.addrs
    ensures !Holds(s.timers, addr)
  {
    forall i | 0 <= i < |s.timers|
      ensures s.timers[i].addr != addr
    {
      assert TimerOk(s.timers[i], s.calls, s.addrs);
    }
  }

  /** What the set is after an insertion at a new address. */
  lemma Joins(s: State, r: Rec<Closure>)
    requires RuntimeOk(s) && r.addr !in s.addrs
    ensures forall x :: x in Insert(s.timers, r) <==> x in s.timers || x == r
  {
    NotHeld(s, r.addr);
    InsertKeeps(s.timers, r);
  }

  lemma IoTimerAdds(s: State, t: nat, k: nat, addr: nat, c: Rec<Closure>)
    requires RuntimeOk(s) && addr !in s.addrs && k < |s.calls| && s.calls[k].timeout.Some?
    requires c == Rec(addr, s.calls[k].timeout.value, s.clock + s.calls[k].timeout.value, Timeout(k), false)
    ensures Adds(s, DoIoTimer(s, k, addr), c)
  {
    TimerArmed(s, k, addr);
    Joins(s, c);
  }

  lemma IoTimerUntimed(s: State, k: nat, addr: nat)
    requires k < |s.calls| && s.calls[k].timeout.None?
    ensures Steady(s, DoIoTimer(s, k, addr))
  {
    TimerArmed(s, k, addr);
  }

  lemma SleeperAwake(s: State, t: nat)
    requires RuntimeOk(s) && Free(s, t)
    ensures !UnderWay(s, Wake(Running(s, t)))
  {
    var f := Running(s, t);
    RunningFiber(s, t);
    assert Tokens(s, f) == Due(s.fibers, f);
    NoWake(s, f);
  }

  lemma SleepAdds(s: State, t: nat, ms: nat, addr: nat, c: Rec<Closure>)
    requires RuntimeOk(s) && Enabled(s, Sleep(t, ms, addr))
    requires c == Rec(addr, ms, s.clock + ms, Wake(Running(s, t)), false)
    ensures Adds(s, DoSleep(s, Running(s, t), ms, addr), c)
  {
    SleeperAwake(s, t);
    SleepMoves(s, t, ms, addr);
    Joins(s, c);
    JoinedAdds(s, DoSleep(s, Running(s, t), ms, addr), c);
  }

  lemma JoinedAdds(s: State, s': State, c: Rec<Closure>)
    requires c.addr !in s.addrs && s'.addrs == s.addrs + {c.addr} && s'.clock == s.clock && s'.calls == s.calls
    requires s'.timers == Insert(s.timers, c) && forall x :: x in Insert(s.timers, c) <==> x in s.timers || x == c
    requires !c.cb.Timeout? && (c.cb.Wake? ==> !c.recurring && !UnderWay(s, c.cb))
    requires forall d: Closure :: !d.User? && d != c.cb ==> (UnderWay(s', d) <==> UnderWay(s, d))
    ensures Adds(s, s', c)
  {
  }

  lemma AddTimerAdds(s: State, addr: nat, ms: nat, id: nat, recurring: bool, c: Rec<Closure>)
    requires RuntimeOk(s) && Enabled(s, AddTimer(addr, ms, id, recurring))
    requires c == Rec(addr, ms, s.clock + ms, User(id), recurring)
    ensures Adds(s, Step(s, AddTimer(addr, ms, id, recurring)).state, c)
  {
    AddTimerMoves(s, addr, ms, id, recurring);
    Joins(s, c);
  }

  /** A call that takes its timer out of the set has ended or is back at its system call. */
  lemma StopSteady(s: State, s': State, k: nat)
    requires RuntimeOk(s) && k < |s.calls| && WakesStay(s, s')
    requires s'.timers == StopTimer(s.timers, s.calls[k].timer) && s'.addrs == s.addrs && s'.clock == s.clock
    requires CallsSteady(s.calls, s'.calls) && (s'.calls[k].live ==> s'.calls[k].stage == Try)
    ensures Steady(s, s')
  {
    StoppedExactly(s, k);
    assert CallOk(s.calls[k], k, s.clock);
    forall r | r in s.timers && r !in s'.timers
      ensures !r.recurring && Dropped(s'.calls, r) && !r.cb.Wake?
    {
      var i :| 0 <= i < |s.timers| && s.timers[i] == r;
      assert TimerOk(s.timers[i], s.calls, s.addrs);
    }
  }

  lemma IoRegisterSteady(s: State, t: nat, fails: bool)
    requires RuntimeOk(s) && WaitOk(s) && Enabled(s, IoRegister(t, fails)) && Step(s, IoRegister(t, fails)).Ok?
    ensures Steady(s, Step(s, IoRegister(t, fails)).state)
  {
    RunningCall(s, t);
    IoRegisterMoves(s, t, fails);
    var f := Running(s, t);
    var k := s.fibers[f].call.value;
    var s' := DoIoRegister(s, f, k, fails).state;
    RegisterOk(s, f, k, fails);
    if fails {
      RefusedTimers(s, f, k);
      StopSteady(s, s', k);
    } else {
      RegisteredTimers(s, f, k);
      SameIsSteady(s, s');
    }
  }

  lemma RegisterOk(s: State, f: nat, k: nat, fails: bool)
    requires Shape(s) && k < |s.calls| && s.calls[k].fd < |Grown(s.poll.ctxs, s.calls[k].fd)|
    ensures var o := AddEvent(s.poll, s.calls[k].fd, s.calls[k].ev, f, None, fails); o.Done? ==> o.ok == !fails
  {
    AddEventLaw(s.poll, s.calls[k].fd, s.calls[k].ev, f, None, fails, TaskTok(0));
  }

  lemma RefusedTimers(s: State, f: nat, k: nat)
    requires f < |s.fibers| && k < |s.calls| && s.calls[k].live && s.calls[k].fd < |Grown(s.poll.ctxs, s.calls[k].fd)|
    requires var o := AddEvent(s.poll, s.calls[k].fd, s.calls[k].ev, f, None, true); o.Done? && !o.ok
    ensures var s' := DoIoRegister(s, f, k, true).state;
      && s'.timers == StopTimer(s.timers, s.calls[k].timer) && s'.addrs == s.addrs && s'.clock == s.clock
      && CallsSteady(s.calls, s'.calls) && !s'.calls[k].live
  {
  }

  lemma RegisteredTimers(s: State, f: nat, k: nat)
    requires f < |s.fibers| && k < |s.calls| && s.calls[k].live && s.calls[k].stage != Try
    requires s.calls[k].fd < |Grown(s.poll.ctxs, s.calls[k].fd)|
    requires var o := AddEvent(s.poll, s.calls[k].fd, s.calls[k].ev, f, None, false); o.Done? && o.ok
    ensures SameTimers(s, DoIoRegister(s, f, k, false).state)
  {
  }

  lemma IoResumeSteady(s: State, t: nat)
    requires RuntimeOk(s) && WaitOk(s) && Enabled(s, IoResume(t))
    ensures Steady(s, Step(s, IoResume(t)).state)
  {
    RunningCall(s, t);
    IoResumeMoves(s, t);
    ResumeTimers(s, Running(s, t), s.fibers[Running(s, t)].call.value);
    StopSteady(s, Step(s, IoResume(t)).state, s.fibers[Running(s, t)].call.value);
  }

  lemma ResumeTimers(s: State, f: nat, k: nat)
    requires f < |s.fibers| && k < |s.calls| && s.calls[k].live && s.calls[k].stage != Try
    ensures var s' := DoIoResume(s, f, k);
      && s'.timers == StopTimer(s.timers, s.calls[k].timer) && s'.addrs == s.addrs && s'.clock == s.clock
      && CallsSteady(s.calls, s'.calls) && (s'.calls[k].live ==> s'.calls[k].stage == Try)
  {
  }

  lemma IoReturnSteady(s: State, t: nat)
    requires RuntimeOk(s) && WaitOk(s) && Enabled(s, IoReturn(t))
    ensures Steady(s, Step(s, IoReturn(t)).state)
  {
    RunningCall(s, t);
    IoReturnMoves(s, t);
    SameIsSteady(s, Step(s, IoReturn(t)).state);
  }

  /** Expiry hands out timers whose time has come, and re-arms the recurring ones. */
  lemma ExpireTimes(s: State, t: nat, probe: nat, made: seq<Rec<Closure>>)
    requires RuntimeOk(s) && TimesOk(s, made) && Enabled(s, IdleExpire(t, probe))
    ensures TimesOk(DoExpire(s, t, probe), made)
  {
    var s' := DoExpire(s, t, probe);
    ExpireKeeps(s, t, probe);
    ExpireMoves(s, t, probe);
    ExpireOrigins(s, probe, made);
    forall c | c in made
      ensures Accounted(s', c)
    {
      assert Accounted(s, c);
      if InSet(s.timers, c) { ExpireAccounts(s, probe, c); }
    }
    forall k | 0 <= k < |s'.calls| && s'.calls[k].expired
      ensures exists c :: c in made && c.cb == Timeout(k) && c.next <= s'.clock
    {
      if !s.calls[k].expired { ExpireMarks(s, probe, k, made); }
    }
    forall f: nat | UnderWay(s', Wake(f))
      ensures LastFor(made, Wake(f)).Some?
      ensures var c := LastFor(made, Wake(f)).value; !c.recurring && (c in s'.timers || c.next <= s'.clock)
    {
      assert UnderWay(s, Wake(f));
      var c := LastFor(made, Wake(f)).value;
      ExpireSplits(s.timers, s.clock, probe);
    }
  }

  lemma ExpireOrigins(s: State, probe: nat, made: seq<Rec<Closure>>)
    requires RuntimeOk(s) && TimersOkWith(s, made)
    ensures forall x :: x in Expire(s.timers, s.clock, probe) ==> Origin(made, x)
  {
    ExpireSplits(s.timers, s.clock, probe);
    var due := s.timers[..Cut(s.timers, s.clock, probe)];
    forall x | x in Expire(s.timers, s.clock, probe)
      ensures Origin(made, x)
    {
      if !(x in s.timers && x.next > s.clock) {
        assert IsRearmed(due, s.clock, x);
        var r: Rec<Closure> :| r in due && r.recurring && x == r.(next := s.clock + r.ms);
        assert Origin(made, r);
        var c: Rec<Closure> :| c in made && Comes(c, r);
        assert Comes(c, x);
      }
    }
  }

  lemma ExpireAccounts(s: State, probe: nat, c: Rec<Closure>)
    requires RuntimeOk(s) && InSet(s.timers, c)
    ensures InSet(Expire(s.timers, s.clock, probe), c) || (!c.recurring && c.next <= s.clock)
  {
    ExpireSplits(s.timers, s.clock, probe);
    var due := s.timers[..Cut(s.timers, s.clock, probe)];
    var r: Rec<Closure> :| r in s.timers && Comes(c, r);
    if r.next <= s.clock {
      if c.recurring {
        var x := r.(next := s.clock + r.ms);
        assert r in due;
        assert IsRearmed(due, s.clock, x) && Comes(c, x);
      }
    } else {
      assert r in Expire(s.timers, s.clock, probe);
    }
  }

  lemma ExpireMarks(s: State, probe: nat, k: nat, made: seq<Rec<Closure>>)
    requires RuntimeOk(s) && TimersOkWith(s, made)
    requires HandsOver(s.timers[..Cut(s.timers, s.clock, probe)], k)
    ensures exists c :: c in made && c.cb == Timeout(k) && c.next <= s.clock
  {
    var due := s.timers[..Cut(s.timers, s.clock, probe)];
    CutIsExact(s.timers, s.clock, probe);
    var i :| 0 <= i < |due| && due[i].cb == Timeout(k);
    assert TimerOk(s.timers[i], s.calls, s.addrs);
    assert s.timers[i] in s.timers && Origin(made, s.timers[i]);
    var c: Rec<Closure> :| c in made && Comes(c, s.timers[i]);
  }

  lemma CallSteady(s: State, op: Op)
    requires RuntimeOk(s) && WaitOk(s) && Enabled(s, op) && Step(s, op).Ok?
    requires op.IoBegin? || op.IoRegister? || op.IoResume? || op.IoReturn?
    ensures Steady(s, Step(s, op).state)
  {
    match op
    case IoBegin(_, _, _, _, _) => BeginSteady(s, op);
    case IoRegister(t, fails) => IoRegisterSteady(s, t, fails);
    case IoResume(t) => IoResumeSteady(s, t);
    case IoReturn(t) => IoReturnSteady(s, t);
  }

  /** The three operations that make timers. */
  predicate Makes(op: Op) {
    op.IoTimer? || op.Sleep? || op.AddTimer?
  }

  lemma StepSteady(s: State, op: Op)
    requires RuntimeOk(s) && WaitOk(s) && Enabled(s, op) && Step(s, op).Ok? && !op.IdleExpire? && !Makes(op)
    ensures Steady(s, Step(s, op).state) && Made(s, op) == []
  {
    if MovesHand(op) {
      HandSteady(s, op);
    } else if op.IoBegin? || op.IoRegister? || op.IoResume? || op.IoReturn? {
      CallSteady(s, op);
    } else {
      QuietSteady(s, op);
    }
  }

  lemma StepMakes(s: State, op: Op)
    requires RuntimeOk(s) && WaitOk(s) && Enabled(s, op) && Makes(op)
    ensures Step(s, op).Ok?
    ensures if Made(s, op) == [] then Steady(s, Step(s, op).state) else |Made(s, op)| == 1 && Adds(s, Step(s, op).state, Made(s, op)[0])
  {
    match op
    case IoTimer(t, addr) =>
      var k := s.fibers[Running(s, t)].call.value;
      if s.calls[k].timeout.Some? { IoTimerAdds(s, t, k, addr, Made(s, op)[0]); } else { IoTimerUntimed(s, k, addr); }
    case Sleep(t, ms, addr) => SleepAdds(s, t, ms, addr, Made(s, op)[0]);
    case AddTimer(addr, ms, id, recurring) => AddTimerAdds(s, addr, ms, id, recurring, Made(s, op)[0]);
  }

  lemma StepTimes(s: State, op: Op, made: seq<Rec<Closure>>)
    requires RuntimeOk(s) && WaitOk(s) && TimesOk(s, made) && Enabled(s, op) && Step(s, op).Ok?
    ensures TimesOk(Step(s, op).state, made + Made(s, op))
  {
    assert made + [] == made;
    if op.IdleExpire? {
      ExpireTimes(s, op.t, op.probe, made);
    } else if Makes(op) {
      StepMakes(s, op);
      if Made(s, op) == [] {
        SteadyKeeps(s, Step(s, op).state, made);
      } else {
        assert Made(s, op) == [Made(s, op)[0]];
        AddsKeeps(s, Step(s, op).state, made, Made(s, op)[0]);
      }
    } else {
      StepSteady(s, op);
      SteadyKeeps(s, Step(s, op).state, made);
    }
  }

  // --------------------------------------------------------------------------- theorems

  lemma {:induction false} RunTimes(s: State, ops: seq<Op>, s': State, made: seq<Rec<Closure>>)
    requires Good(s) && TimesOk(s, made) && Reaches(s, ops, s')
    ensures TimesOk(s', made + AllMade(s, ops))
    decreases |ops|
  {
    if ops == [] {
      assert made + [] == made;
    } else {
      TimesStep(s, ops[0], made);
      RunTimes(Step(s, ops[0]).state, ops[1..], s', made + Made(s, ops[0]));
      MadeFirst(s, ops, made);
    }
  }

  lemma TimesStep(s: State, op: Op, made: seq<Rec<Closure>>)
    requires Good(s) && TimesOk(s, made) && Enabled(s, op) && Step(s, op).Ok?
    ensures Good(Step(s, op).state) && TimesOk(Step(s, op).state, made + Made(s, op))
  {
    StepGood(s, op);
    StepTimes(s, op, made);
  }

  lemma MadeFirst(s: State, ops: seq<Op>, made: seq<Rec<Closure>>)
    requires ops != [] && Enabled(s, ops[0]) && Step(s, ops[0]).Ok?
    ensures made + AllMade(s, ops) == made + Made(s, ops[0]) + AllMade(Step(s, ops[0]).state, ops[1..])
  {
  }

  lemma TimesInRuns(n: nat, ops: seq<Op>, s: State)
    requires Reaches(Start(n), ops, s)
    ensures TimesOk(s, AllMade(Start(n), ops)) && Good(s)
  {
    ReachableGood(n, Start(n)) by { assert Reaches(Start(n), [], Start(n)); }
    ReachableGood(n, s);
    assert TimesOk(Start(n), []);
    RunTimes(Start(n), ops, s, []);
    assert [] + AllMade(Start(n), ops) == AllMade(Start(n), ops);
  }

  /** In every run: a timer in the set is one that was made, with the deadline it was made with or, if it is recurring,
      a later one; and a timer that was made is in the set, unless it was a one-shot and its time has come, or
      its call has ended or gone on without it. */
  lemma TimersAreAsMade(n: nat, ops: seq<Op>, s: State, r: Rec<Closure>)
    requires Reaches(Start(n), ops, s)
    ensures var made := AllMade(Start(n), ops);
      && (r in s.timers && !r.recurring ==> r in made)
      && (r in s.timers && r.recurring ==> exists c: Rec<Closure> :: c in made && c.next <= r.next && r == c.(next := r.next))
      && (r in made && !r.recurring && !r.cb.Timeout? ==> r in s.timers || r.next <= s.clock)
      && (r in made && r.recurring && !r.cb.Timeout? ==> exists x: Rec<Closure> :: x in s.timers && x == r.(next := x.next))
      && (r in made && r.cb.Timeout? ==> r.cb.call < |s.calls| && (r in s.timers || r.next <= s.clock || Dropped(s.calls, r)))
  {
    var made := AllMade(Start(n), ops);
    TimesInRuns(n, ops, s);
    if r in s.timers {
      assert Origin(made, r);
      var c: Rec<Closure> :| c in made && Comes(c, r);
      assert r == c || r == c.(next := r.next);
    }
    if r in made {
      assert Accounted(s, r);
      if InSet(s.timers, r) {
        var x: Rec<Closure> :| x in s.timers && Comes(r, x);
        var i :| 0 <= i < |s.timers| && s.timers[i] == x;
        assert TimerOk(s.timers[i], s.calls, s.addrs);
      }
    }
  }

  /** In every run: the timer of a wait is due exactly one limit after the wait began, and a call's flag, or its
      ETIMEDOUT, means that one of its own waits began at least one limit ago. */
  lemma LimitsRunFromTheWait(n: nat, ops: seq<Op>, s: State, k: nat)
    requires Reaches(Start(n), ops, s) && k < |s.calls|
    ensures var made := AllMade(Start(n), ops);
      && (s.calls[k].timer.Some? ==> s.calls[k].timer == LastFor(made, Timeout(k)))
      && (s.calls[k].expired || s.calls[k].cancelled || s.calls[k].timedOut ==>
            exists c :: c in made && c.cb == Timeout(k) && c.next <= s.clock)
  {
    TimesInRuns(n, ops, s);
    assert CallOk(s.calls[k], k, s.clock);
  }

  /** In every run: while the wake-up of a sleeping fiber is queued or in a thread's hands, its last sleep has run its
      full time; before, it is in the timer set, due exactly at the end of that sleep. */
  lemma SleepsRunTheirTime(n: nat, ops: seq<Op>, s: State, f: nat)
    requires Reaches(Start(n), ops, s) && UnderWay(s, Wake(f))
    ensures var nap := LastFor(AllMade(Start(n), ops), Wake(f));
      && nap.Some?
      && (Queued(s.queue, Wake(f)) || InSomeHand(s.threads, Wake(f)) ==> nap.value.next <= s.clock)
      && (InTimers(s.timers, Wake(f)) && s.clock < nap.value.next ==> nap.value in s.timers)
  {
    TimesInRuns(n, ops, s);
    var nap := LastFor(AllMade(Start(n), ops), Wake(f)).value;
    LastIsMade(AllMade(Start(n), ops), Wake(f));
    if nap in s.timers && s.clock < nap.next { OneWake(s, f, nap); }
  }

  /** A wake-up in the timer set is nowhere else. */
  lemma OneWake(s: State, f: nat, r: Rec<Closure>)
    requires RuntimeOk(s) && r in s.timers && r.cb == Wake(f)
    ensures !Queued(s.queue, Wake(f)) && !InSomeHand(s.threads, Wake(f))
  {
    assert Tokens(s, f) == Due(s.fibers, f);
    var i :| 0 <= i < |s.timers| && s.timers[i] == r;
    TotalRemove(s.timers, i, TimerTok(f));
    forall j | 0 <= j < |s.queue|
      ensures s.queue[j].cb != Some(Wake(f))
    {
      TotalRemove(s.queue, j, TaskTok(f));
    }
    forall t | 0 <= t < |s.threads|
      ensures Wake(f) !in HandClosures(s.threads[t].held)
    {
      TotalRemove(s.threads, t, ThreadTok(f));
      var h := s.threads[t].held;
      if h.RunIdle? && Wake(f) in h.cbs {
        var j :| 0 <= j < |h.cbs| && h.cbs[j] == Wake(f);
        TotalRemove(h.cbs, j, ClosureTok(f));
      }
    }
  }
}
