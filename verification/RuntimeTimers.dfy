/** Every step of the runtime keeps every invariant, continued: timers, sleeping and
    hooked calls. */
module RuntimeTimers {
  import opened Prelude
  import opened Tasks
  import opened Poller
  import opened PollerLaws
  import opened Timers
  import opened Runtime
  import opened RuntimeInv
  import opened RuntimeSteps
  import opened RuntimeIo

  // --------------------------------------------------------------------- adding timers

  ghost predicate TimerSetOk(timers: seq<Rec<Closure>>, calls: seq<Call>, addrs: set<nat>) {
    TimersOk(timers, calls, addrs) && HandlesOk(timers, calls, addrs)
  }

  /** A timer at a fresh address joins the set. */
  lemma InsertTimer(timers: seq<Rec<Closure>>, calls: seq<Call>, addrs: set<nat>, r: Rec<Closure>)
    requires TimerSetOk(timers, calls, addrs) && r.addr !in addrs && TimerOk(r, calls, addrs + {r.addr})
    ensures TimerSetOk(Insert(timers, r), calls, addrs + {r.addr})
    ensures forall i :: 0 <= i < |Insert(timers, r)| && Insert(timers, r)[i].addr == r.addr ==> Insert(timers, r)[i] == r
  {
    forall i | 0 <= i < |timers|
      ensures timers[i].addr != r.addr
    {
      assert TimerOk(timers[i], calls, addrs);
    }
    assert !Holds(timers, r.addr);
    InsertKeeps(timers, r);
    var s := Insert(timers, r);
    forall i | 0 <= i < |s|
      ensures TimerOk(s[i], calls, addrs + {r.addr})
      ensures s[i] == r || s[i] in timers
    {
      assert s[i] in s;
      if s[i] != r {
        var j :| 0 <= j < |timers| && timers[j] == s[i];
        assert TimerOk(timers[j], calls, addrs);
      }
    }
  }

  lemma InsertTokens(timers: seq<Rec<Closure>>, r: Rec<Closure>, f: nat)
    ensures Total(Insert(timers, r), TimerTok(f)) == Total(timers, TimerTok(f)) + TimerTok(f)(r)
  {
    TotalInsert(timers, LowerBound(timers, r.next, r.addr), r, TimerTok(f));
  }

  lemma AddTimerKeeps(s: State, addr: nat, ms: nat, id: nat, recurring: bool)
    requires RuntimeOk(s) && Enabled(s, AddTimer(addr, ms, id, recurring))
    ensures var r := Step(s, AddTimer(addr, ms, id, recurring));
      r.Ok? && Shape(r.state) && Linear(r.state)
  {
    var r := Rec(addr, ms, s.clock + ms, User(id), recurring);
    InsertTimer(s.timers, s.calls, s.addrs, r);
    var s' := Step(s, AddTimer(addr, ms, id, recurring)).state;
    forall f: nat
      ensures Tokens(s', f) == Due(s'.fibers, f)
    {
      assert Tokens(s, f) == Due(s.fibers, f);
      InsertTokens(s.timers, r, f);
    }
  }

  // ------------------------------------------------------------------- stopping timers

  /** Taking out a deadline check takes out no wake-up. */
  lemma {:induction false} CheckErased(timers: seq<Rec<Closure>>, i: nat, calls: seq<Call>, addrs: set<nat>)
    requires TimerSetOk(timers, calls, addrs) && i < |timers| && timers[i].cb.Timeout?
    ensures TimerSetOk(timers[..i] + timers[i + 1..], calls, addrs)
    ensures forall f: nat :: Total(timers[..i] + timers[i + 1..], TimerTok(f)) == Total(timers, TimerTok(f))
  {
    EraseKeeps(timers, i);
    var q := timers[..i] + timers[i + 1..];
    assert forall j :: 0 <= j < |q| ==> q[j] == timers[if j < i then j else j + 1];
    forall f: nat
      ensures Total(q, TimerTok(f)) == Total(timers, TimerTok(f))
    {
      TotalRemove(timers, i, TimerTok(f));
    }
  }

  /** timer->cancel() of a call takes out that call's own timer or nothing. */
  lemma StopTimerKeeps(timers: seq<Rec<Closure>>, calls: seq<Call>, addrs: set<nat>, k: nat, clock: nat)
    requires TimerSetOk(timers, calls, addrs) && CallsOk(calls, clock) && k < |calls|
    ensures TimerSetOk(StopTimer(timers, calls[k].timer), calls, addrs)
    ensures forall f: nat :: Total(StopTimer(timers, calls[k].timer), TimerTok(f)) == Total(timers, TimerTok(f))
  {
    if calls[k].timer.Some? {
      var h := calls[k].timer.value;
      var found := Find(timers, h.next, h.addr);
      if found.Some? {
        assert timers[found.value] == h && CallOk(calls[k], k, clock);
        CheckErased(timers, found.value, calls, addrs);
      }
    }
  }

  // ------------------------------------------------------------------ the hooked calls

  /** Changing the running, unarmed fiber of a thread without touching its state or owner. */
  lemma RunningUpdate(s: State, t: nat, fb: Fiber)
    requires Own(s.fibers, s.threads) && Runs(s, t)
    requires var old_ := s.fibers[Running(s, t)]; fb.state == old_.state && fb.owner == old_.owner
    ensures s.fibers[Running(s, t)].state == EXEC
    ensures Own(s.fibers[Running(s, t) := fb], s.threads)
  {
    var th := s.threads[t];
    var f := Running(s, t);
    assert ThreadOk(s.fibers, th, t);
    forall g | 0 <= g < |s.fibers| && s.fibers[g].owner == Some(t)
      ensures Has(th, g)
    {
      assert FiberOk(s.fibers[g], g, s.threads);
    }
    assert FiberOk(s.fibers[f], f, s.threads);
    OwnUpdate(s.fibers, s.threads, t, th, f, fb);
    assert s.threads[t := th] == s.threads;
  }

  lemma IoBeginKeeps(s: State, t: nat, kind: Kind, fd: nat, ev: Event, timeout: Option<nat>)
    requires RuntimeOk(s) && Enabled(s, IoBegin(t, kind, fd, ev, timeout))
    ensures var r := Step(s, IoBegin(t, kind, fd, ev, timeout));
      r.Ok? && Shape(r.state) && Linear(r.state)
  {
    var f := Running(s, t);
    var s' := Step(s, IoBegin(t, kind, fd, ev, timeout)).state;
    RunningUpdate(s, t, s'.fibers[f]);
    GrowsKeeps(s, s'.calls);
    LinearSame(s, s');
  }

  /** Steps that move no token and change no fiber's need. */
  lemma LinearSame(s: State, s': State)
    requires Linear(s)
    requires s'.queue == s.queue && s'.poll.ctxs == s.poll.ctxs && s'.threads == s.threads
    requires |s'.fibers| == |s.fibers| && forall f :: 0 <= f < |s.fibers| ==> Need(s'.fibers[f]) == Need(s.fibers[f])
    requires forall f: nat :: Total(s'.timers, TimerTok(f)) == Total(s.timers, TimerTok(f))
    ensures Linear(s')
  {
    forall f: nat
      ensures Tokens(s', f) == Due(s'.fibers, f)
    {
      assert Tokens(s, f) == Due(s.fibers, f);
    }
  }

  /** Changing one call without going back on its deadline or history keeps the timer set in order. */
  lemma SetCallKeeps(s: State, k: nat, c: Call)
    requires Shape(s) && k < |s.calls| && CallOk(c, k, s.clock)
    requires c.entry == s.calls[k].entry && c.timeout == s.calls[k].timeout && (s.calls[k].expired ==> c.expired)
    requires c.timer == s.calls[k].timer || c.timer.None?
    ensures Shape(SetCall(s, k, c))
  {
    GrowsKeeps(s, s.calls[k := c]);
  }

  /** The timer of a call enters the set together with the call's handle on it. */
  lemma ArmKeeps(s: State, k: nat, addr: nat)
    requires Shape(s) && k < |s.calls| && s.calls[k].timeout.Some? && addr !in s.addrs
    ensures Shape(DoIoTimer(s, k, addr))
  {
    var c := s.calls[k];
    assert CallOk(c, k, s.clock);
    var r := Rec(addr, c.timeout.value, s.clock + c.timeout.value, Timeout(k), false);
    SetCallKeeps(s, k, c.(stage := Timed, timer := None));
    var bare := SetCall(s, k, c.(stage := Timed, timer := None));
    InsertTimer(bare.timers, bare.calls, bare.addrs, r);
    var done := bare.(timers := Insert(s.timers, r), addrs := s.addrs + {addr});
    assert Shape(done);
    HandleSet(done, k, r);
    assert DoIoTimer(s, k, addr) == SetCall(done, k, done.calls[k].(timer := Some(r)));
  }

  lemma HandleSet(s: State, k: nat, r: Rec<Closure>)
    requires Shape(s) && k < |s.calls| && r.cb == Timeout(k) && r.addr in s.addrs
    requires forall i :: 0 <= i < |s.timers| && s.timers[i].addr == r.addr ==> s.timers[i] == r
    ensures Shape(SetCall(s, k, s.calls[k].(timer := Some(r))))
  {
    assert CallOk(s.calls[k], k, s.clock);
    GrowsKeeps(s, s.calls[k := s.calls[k].(timer := Some(r))]);
  }

  lemma IoTimerKeeps(s: State, t: nat, addr: nat)
    requires RuntimeOk(s) && Enabled(s, IoTimer(t, addr))
    ensures var r := Step(s, IoTimer(t, addr));
      r.Ok? && Shape(r.state) && Linear(r.state) && r.state.fibers == s.fibers
      && r.state.calls[s.fibers[Running(s, t)].call.value].stage == Timed
  {
    var k := s.fibers[Running(s, t)].call.value;
    if s.calls[k].timeout.None? {
      UntimedKeeps(s, k);
    } else {
      ArmKeeps(s, k, addr);
      ArmLinear(s, k, addr);
    }
  }

  lemma UntimedKeeps(s: State, k: nat)
    requires Shape(s) && Linear(s) && k < |s.calls|
    ensures var s' := SetCall(s, k, s.calls[k].(stage := Timed, timer := None)); Shape(s') && Linear(s')
  {
    assert CallOk(s.calls[k], k, s.clock);
    SetCallKeeps(s, k, s.calls[k].(stage := Timed, timer := None));
    LinearSame(s, SetCall(s, k, s.calls[k].(stage := Timed, timer := None)));
  }

  /** A deadline check in a timer wakes nobody by itself. */
  lemma ArmLinear(s: State, k: nat, addr: nat)
    requires Linear(s) && k < |s.calls| && s.calls[k].timeout.Some?
    ensures Linear(DoIoTimer(s, k, addr))
  {
    var c := s.calls[k];
    var r := Rec(addr, c.timeout.value, s.clock + c.timeout.value, Timeout(k), false);
    forall f: nat
      ensures Total(DoIoTimer(s, k, addr).timers, TimerTok(f)) == Total(s.timers, TimerTok(f))
    {
      InsertTokens(s.timers, r, f);
    }
    LinearSame(s, DoIoTimer(s, k, addr));
  }

  lemma LeaveKeeps(s: State, t: nat, k: nat, c: Call)
    requires Shape(s) && Linear(s) && Runs(s, t) && k < |s.calls| && CallOk(c, k, s.clock)
    requires c.entry == s.calls[k].entry && c.timeout == s.calls[k].timeout && (s.calls[k].expired ==> c.expired)
    requires c.timer == s.calls[k].timer
    ensures Shape(Leave(s, Running(s, t), k, c)) && Linear(Leave(s, Running(s, t), k, c))
  {
    var f := Running(s, t);
    var s1 := SetCall(s, k, c.(live := false));
    SetCallKeeps(s, k, c.(live := false));
    RunningUpdate(s1, t, s.fibers[f].(call := None));
    LinearSame(s, Leave(s, f, k, c));
  }

  lemma StoppedKeeps(s: State, k: nat)
    requires Shape(s) && Linear(s) && k < |s.calls|
    ensures var s1 := s.(timers := StopTimer(s.timers, s.calls[k].timer)); Shape(s1) && Linear(s1)
  {
    StopTimerKeeps(s.timers, s.calls, s.addrs, k, s.clock);
    LinearSame(s, s.(timers := StopTimer(s.timers, s.calls[k].timer)));
  }

  /** A call's own timer is taken out of the set, and no other. */
  lemma StoppedExactly(s: State, k: nat)
    requires Shape(s) && k < |s.calls|
    ensures forall r :: r in StopTimer(s.timers, s.calls[k].timer) <==> r in s.timers && s.calls[k].timer != Some(r)
  {
    if s.calls[k].timer.Some? {
      var h := s.calls[k].timer.value;
      if h in s.timers {
        var i :| 0 <= i < |s.timers| && s.timers[i] == h;
        EraseKeeps(s.timers, i);
      } else {
        assert forall i :: 0 <= i < |s.timers| ==> s.timers[i] in s.timers;
        NotHeldErases(s.timers, h);
      }
    }
  }

  lemma NotHeldErases(timers: seq<Rec<Closure>>, h: Rec<Closure>)
    requires forall i :: 0 <= i < |timers| ==> timers[i].addr != h.addr
    ensures Erase(timers, h.next, h.addr) == timers
  {
  }

  lemma IoReturnKeeps(s: State, t: nat)
    requires RuntimeOk(s) && Enabled(s, IoReturn(t))
    ensures Step(s, IoReturn(t)).Ok? && Shape(Step(s, IoReturn(t)).state) && Linear(Step(s, IoReturn(t)).state)
    ensures var f := Running(s, t);
      var k := s.fibers[f].call.value;
      var s' := Step(s, IoReturn(t)).state;
      s'.fibers[f].call.None? && !s'.calls[k].live && s'.calls[k].timedOut == s.calls[k].timedOut && s'.timers == s.timers
  {
    var k := s.fibers[Running(s, t)].call.value;
    assert CallOk(s.calls[k], k, s.clock);
    LeaveKeeps(s, t, k, s.calls[k]);
  }

  lemma IoResumeKeeps(s: State, t: nat)
    requires RuntimeOk(s) && Enabled(s, IoResume(t))
    ensures Step(s, IoResume(t)).Ok? && Shape(Step(s, IoResume(t)).state) && Linear(Step(s, IoResume(t)).state)
    ensures var c := s.calls[s.fibers[Running(s, t)].call.value];
      forall r :: r in Step(s, IoResume(t)).state.timers <==> r in s.timers && c.timer != Some(r)
  {
    var k := s.fibers[Running(s, t)].call.value;
    var c := s.calls[k];
    assert CallOk(c, k, s.clock);
    StoppedKeeps(s, k);
    StoppedExactly(s, k);
    var s1 := s.(timers := StopTimer(s.timers, c.timer));
    if c.cancelled {
      LeaveKeeps(s1, t, k, c.(timedOut := true));
    } else if c.kind == Io {
      SetCallKeeps(s1, k, c.(stage := Try));
      LinearSame(s1, SetCall(s1, k, c.(stage := Try)));
    } else {
      LeaveKeeps(s1, t, k, c);
    }
  }

  /** A refused registration, after its vector has grown, has moved no token. */
  lemma SamePending(s: State, s1: State)
    requires Linear(s) && s1 == s.(poll := s1.poll)
    requires forall g: nat :: Pending(s1.poll.ctxs, TaskTok(g)) == Pending(s.poll.ctxs, TaskTok(g))
    ensures Linear(s1)
  {
    forall g: nat
      ensures Tokens(s1, g) == Due(s1.fibers, g)
    {
      assert Tokens(s, g) == Due(s.fibers, g);
    }
  }

  lemma IoRegisterKeeps(s: State, t: nat, fails: bool)
    requires RuntimeOk(s) && Enabled(s, IoRegister(t, fails))
    ensures var c := s.calls[s.fibers[Running(s, t)].call.value];
      FitsGrown(s, c.fd)
    ensures var c := s.calls[s.fibers[Running(s, t)].call.value];
      var r := Step(s, IoRegister(t, fails));
      && (r.Failed? <==> c.fd < |s.poll.ctxs| && s.poll.ctxs[c.fd].events.Has(c.ev))
      && (r.Failed? ==> r.site == PollerLine(137))
      && (r.Ok? ==> Shape(r.state) && Linear(r.state))
    ensures Step(s, IoRegister(t, fails)).Ok? ==>
      var f := Running(s, t);
      var k := s.fibers[f].call.value;
      var c, s' := s.calls[k], Step(s, IoRegister(t, fails)).state;
      if fails then
        && s'.fibers == s.fibers[f := s.fibers[f].(call := None)] && s'.calls == s.calls[k := c.(live := false)]
        && forall r :: r in s'.timers <==> r in s.timers && c.timer != Some(r)
      else
        && s'.fibers == s.fibers[f := s.fibers[f].(armed := true)] && s'.calls == s.calls[k := c.(stage := Waiting)]
        && s'.timers == s.timers && c.fd < |s'.poll.ctxs| && s'.poll.ctxs[c.fd].Get(c.ev).fiber == Some(f)
  {
    var f := Running(s, t);
    var k := s.fibers[f].call.value;
    var c := s.calls[k];
    GrownKeeps(s.poll.ctxs, c.fd, TaskTok(0));
    AddPlain(s.poll, c.fd, c.ev, f, None, fails);
    var o := AddEvent(s.poll, c.fd, c.ev, f, None, fails);
    if o.Done? {
      assert CallOk(c, k, s.clock);
      var s1 := s.(poll := o.poller);
      if o.ok {
        RegisteredKeeps(s, s1, t, k);
      } else {
        SamePending(s, s1);
        StoppedKeeps(s1, k);
        StoppedExactly(s1, k);
        LeaveKeeps(s1.(timers := StopTimer(s1.timers, c.timer)), t, k, c);
      }
    }
  }

  ghost predicate FitsGrown(s: State, fd: nat) {
    fd < |Grown(s.poll.ctxs, fd)|
  }

  /** The slot's new token is the one the armed fiber needs. */
  lemma RegisteredKeeps(s: State, s1: State, t: nat, k: nat)
    requires RuntimeOk(s) && Runs(s, t) && !s.fibers[Running(s, t)].armed && k < |s.calls|
    requires s1 == s.(poll := s1.poll) && Inv(s1.poll) && SlotsPlain(s1.poll.ctxs)
    requires forall g: nat :: Pending(s1.poll.ctxs, TaskTok(g)) ==
                              Pending(s.poll.ctxs, TaskTok(g)) + TaskTok(g)(Task(Some(Running(s, t)), None, None))
    ensures var f := Running(s, t);
      var s' := SetFiber(SetCall(s1, k, s.calls[k].(stage := Waiting)), f, s.fibers[f].(armed := true));
      Shape(s') && Linear(s')
  {
    var f := Running(s, t);
    var s2 := SetCall(s1, k, s.calls[k].(stage := Waiting));
    assert CallOk(s.calls[k], k, s.clock);
    SetCallKeeps(s1, k, s.calls[k].(stage := Waiting));
    RunningUpdate(s2, t, s.fibers[f].(armed := true));
    var s' := SetFiber(s2, f, s.fibers[f].(armed := true));
    forall g: nat
      ensures Tokens(s', g) == Due(s'.fibers, g)
    {
      assert Tokens(s, g) == Due(s.fibers, g);
    }
  }

  lemma NewTimerKeeps(s: State, r: Rec<Closure>)
    requires Shape(s) && r.addr !in s.addrs && TimerOk(r, s.calls, s.addrs + {r.addr})
    ensures Shape(s.(timers := Insert(s.timers, r), addrs := s.addrs + {r.addr}))
  {
    InsertTimer(s.timers, s.calls, s.addrs, r);
  }

  lemma ArmedKeeps(s: State, t: nat, s': State)
    requires Shape(s) && Runs(s, t)
    requires s' == SetFiber(s, Running(s, t), s.fibers[Running(s, t)].(armed := true))
    ensures Shape(s') && s.fibers[Running(s, t)].state == EXEC
  {
    RunningUpdate(s, t, s.fibers[Running(s, t)].(armed := true));
  }

  /** The timer's new token is the one the armed fiber needs. */
  lemma SleepLinear(s: State, f: nat, r: Rec<Closure>, s': State)
    requires Linear(s) && f < |s.fibers| && r.cb == Wake(f) && s.fibers[f].state == EXEC && !s.fibers[f].armed
    requires s' == SetFiber(s.(timers := Insert(s.timers, r), addrs := s.addrs + {r.addr}), f, s.fibers[f].(armed := true))
    ensures Linear(s')
  {
    forall g: nat
      ensures Tokens(s', g) == Due(s'.fibers, g)
    {
      assert Tokens(s, g) == Due(s.fibers, g);
      InsertTokens(s.timers, r, g);
    }
  }

  lemma SleepKeeps(s: State, t: nat, ms: nat, addr: nat)
    requires RuntimeOk(s) && Enabled(s, Sleep(t, ms, addr))
    ensures var r := Step(s, Sleep(t, ms, addr));
      r.Ok? && Shape(r.state) && Linear(r.state)
    ensures var f := Running(s, t);
      var s' := Step(s, Sleep(t, ms, addr)).state;
      s'.fibers[f].armed && Tokens(s', f) == Total(s'.timers, TimerTok(f)) == 1
  {
    var f := Running(s, t);
    var r := Rec(addr, ms, s.clock + ms, Wake(f), false);
    var s1 := s.(timers := Insert(s.timers, r), addrs := s.addrs + {addr});
    var s' := Step(s, Sleep(t, ms, addr)).state;
    NewTimerKeeps(s, r);
    ArmedKeeps(s1, t, s');
    SleepLinear(s, f, r, s');
    SleepToken(s, f, r, s');
  }

  /** The one token of an armed sleeper is in its timer. */
  lemma SleepToken(s: State, f: nat, r: Rec<Closure>, s': State)
    requires Linear(s') && f < |s'.fibers| && s'.fibers[f].state == EXEC && s'.fibers[f].armed
    requires s'.timers == Insert(s.timers, r) && r.cb == Wake(f)
    ensures Tokens(s', f) == Total(s'.timers, TimerTok(f)) == 1
  {
    InsertTokens(s.timers, r, f);
    assert Tokens(s', f) == Due(s'.fibers, f);
  }

  // ---------------------------------------------------------------------------- expiry

  lemma {:induction false} RearmTokens(q: seq<Rec<Closure>>, due: seq<Rec<Closure>>, now: nat, f: nat)
    requires forall i :: 0 <= i < |due| && due[i].recurring ==> due[i].cb.User?
    ensures Total(Rearm(q, due, now), TimerTok(f)) == Total(q, TimerTok(f))
    decreases |due|
  {
    if due != [] {
      var r := due[0];
      if r.recurring { InsertTokens(q, Rearmed(r, now), f); }
      RearmTokens(if r.recurring then Insert(q, Rearmed(r, now)) else q, due[1..], now, f);
    }
  }

  lemma {:induction false} CallbackTokens(due: seq<Rec<Closure>>, f: nat)
    ensures Total(Callbacks(due), ClosureTok(f)) == Total(due, TimerTok(f))
  {
    if due != [] {
      CallbackTokens(due[1..], f);
      assert Callbacks(due)[1..] == Callbacks(due[1..]);
    }
  }

  lemma {:induction false} CbTaskTokens(cbs: seq<Closure>, f: nat)
    ensures Total(CbTasks(cbs), TaskTok(f)) == Total(cbs, ClosureTok(f))
  {
    if cbs != [] {
      CbTaskTokens(cbs[1..], f);
      assert CbTasks(cbs)[1..] == CbTasks(cbs[1..]);
    }
  }

  lemma {:induction false} CallbacksAt(due: seq<Rec<Closure>>)
    ensures |Callbacks(due)| == |due| && forall i :: 0 <= i < |due| ==> Callbacks(due)[i] == due[i].cb
  {
    if due != [] {
      CallbacksAt(due[1..]);
    }
  }

  lemma {:induction false} CbTasksAt(cbs: seq<Closure>)
    ensures |CbTasks(cbs)| == |cbs| && forall i :: 0 <= i < |cbs| ==> CbTasks(cbs)[i] == Task(None, Some(cbs[i]), None)
  {
    if cbs != [] {
      CbTasksAt(cbs[1..]);
    }
  }

  ghost predicate HandsOver(due: seq<Rec<Closure>>, k: nat) {
    exists i :: 0 <= i < |due| && due[i].cb == Timeout(k)
  }

  lemma {:induction false} MarkExpiredLaw(calls: seq<Call>, due: seq<Rec<Closure>>)
    ensures forall k :: 0 <= k < |calls| ==>
      MarkExpired(calls, due)[k] == calls[k].(expired := calls[k].expired || HandsOver(due, k))
    decreases |due|
  {
    if due != [] {
      var c := due[0].cb;
      var calls1 := if c.Timeout? && c.call < |calls| then calls[c.call := calls[c.call].(expired := true)] else calls;
      MarkExpiredLaw(calls1, due[1..]);
      forall k | 0 <= k < |calls|
        ensures HandsOver(due, k) <==> c == Timeout(k) || HandsOver(due[1..], k)
      {
        if HandsOver(due[1..], k) {
          var i :| 0 <= i < |due[1..]| && due[1..][i].cb == Timeout(k);
          assert due[i + 1].cb == Timeout(k);
        }
        if HandsOver(due, k) && c != Timeout(k) {
          var i :| 0 <= i < |due| && due[i].cb == Timeout(k);
          assert due[1..][i - 1].cb == Timeout(k);
        }
      }
    }
  }

  /** The tokens in the due timers go along with their callbacks. */
  lemma ExpireTokens(s: State, t: nat, probe: nat, f: nat)
    requires Shape(s) && Enabled(s, IdleExpire(t, probe))
    ensures Tokens(DoExpire(s, t, probe), f) == Tokens(s, f)
  {
    var i := Cut(s.timers, s.clock, probe);
    var due := s.timers[..i];
    assert s.timers == due + s.timers[i..];
    TotalConcat(due, s.timers[i..], TimerTok(f));
    assert forall j :: 0 <= j < |due| ==> TimerOk(due[j], s.calls, s.addrs);
    RearmTokens(s.timers[i..], due, s.clock, f);
    CallbackTokens(due, f);
    TotalUpdate(s.threads, t, s.threads[t].(held := RunIdle(Callbacks(due))), ThreadTok(f));
  }

  /** The calls after an expiry: their marks are justified by the due timers. */
  lemma ExpireCalls(s: State, probe: nat)
    requires Shape(s)
    ensures var due := s.timers[..Cut(s.timers, s.clock, probe)];
      var calls := MarkExpired(s.calls, due);
      && Grows(s.calls, calls) && CallsOk(calls, s.clock)
      && (forall k :: 0 <= k < |calls| ==> calls[k].timer == s.calls[k].timer)
      && (forall j :: 0 <= j < |due| ==> ClosureOk(due[j].cb, calls))
  {
    var i := Cut(s.timers, s.clock, probe);
    var due := s.timers[..i];
    var calls := MarkExpired(s.calls, due);
    CutIsExact(s.timers, s.clock, probe);
    MarkExpiredLaw(s.calls, due);
    forall j | 0 <= j < |due|
      ensures ClosureOk(due[j].cb, calls)
      ensures due[j].cb.Timeout? ==> s.calls[due[j].cb.call].timeout.Some? && Deadline(s.calls[due[j].cb.call]) <= s.clock
    {
      assert TimerOk(s.timers[j], s.calls, s.addrs);
      assert due[j].cb.Timeout? ==> HandsOver(due, due[j].cb.call);
    }
    forall k | 0 <= k < |calls|
      ensures CallOk(calls[k], k, s.clock)
    {
      assert CallOk(s.calls[k], k, s.clock);
    }
  }

  lemma ExpireTimers(s: State, probe: nat, calls: seq<Call>)
    requires Shape(s) && Grows(s.calls, calls) && |calls| == |s.calls|
    requires forall k :: 0 <= k < |calls| ==> calls[k].timer == s.calls[k].timer
    ensures TimerSetOk(Expire(s.timers, s.clock, probe), calls, s.addrs)
  {
    var q := Expire(s.timers, s.clock, probe);
    ExpireSplits(s.timers, s.clock, probe);
    forall i | 0 <= i < |q|
      ensures TimerOk(q[i], calls, s.addrs)
      ensures forall k :: 0 <= k < |calls| && calls[k].timer.Some? && q[i].addr == calls[k].timer.value.addr ==>
        q[i] == calls[k].timer.value
    {
      assert q[i] in q;
      if q[i] in s.timers && q[i].next > s.clock {
        var j :| 0 <= j < |s.timers| && s.timers[j] == q[i];
        assert TimerOk(s.timers[j], s.calls, s.addrs);
      } else {
        assert IsRearmed(s.timers[..Cut(s.timers, s.clock, probe)], s.clock, q[i]);
        RearmedOk(s, probe, calls, q[i]);
      }
    }
  }

  /** A timer that came round is a user's, and no call's. */
  lemma RearmedOk(s: State, probe: nat, calls: seq<Call>, x: Rec<Closure>)
    requires Shape(s) && IsRearmed(s.timers[..Cut(s.timers, s.clock, probe)], s.clock, x)
    requires |calls| == |s.calls| && forall k :: 0 <= k < |calls| ==> calls[k].timer == s.calls[k].timer
    ensures TimerOk(x, calls, s.addrs)
    ensures forall k :: 0 <= k < |calls| && calls[k].timer.Some? ==> calls[k].timer.value.addr != x.addr
  {
    var due := s.timers[..Cut(s.timers, s.clock, probe)];
    var r: Rec<Closure> :| r in due && r.recurring && x == r.(next := s.clock + r.ms);
    var j :| 0 <= j < |s.timers| && s.timers[j] == r;
    assert TimerOk(s.timers[j], s.calls, s.addrs);
    forall k | 0 <= k < |calls| && calls[k].timer.Some?
      ensures calls[k].timer.value.addr != r.addr
    {
      assert CallOk(s.calls[k], k, s.clock);
    }
  }

  /** idle's vector is part of its thread only. */
  lemma IdleUpdate(s: State, t: nat, cbs: seq<Closure>)
    requires Shape(s) && t < |s.threads| && s.threads[t].held.RunIdle? && CallbacksOk(cbs, s.calls)
    ensures Shape(SetThread(s, t, s.threads[t].(held := RunIdle(cbs))))
  {
    var th := s.threads[t];
    var th' := th.(held := RunIdle(cbs));
    assert ThreadOk(s.fibers, th, t);
    forall g | 0 <= g < |s.fibers| && s.fibers[g].owner == Some(t)
      ensures Has(th', g)
    {
      assert FiberOk(s.fibers[g], g, s.threads);
    }
    OwnThread(s.fibers, s.threads, t, th');
    HandsUpdate(s.threads, s.calls, t, th');
  }

  /** Expiry takes exactly the due timers' callbacks into idle's hands, in order, and marks their calls. */
  lemma ExpireKeeps(s: State, t: nat, probe: nat)
    requires RuntimeOk(s) && Enabled(s, IdleExpire(t, probe))
    ensures Step(s, IdleExpire(t, probe)) == Ok(DoExpire(s, t, probe))
    ensures var s' := DoExpire(s, t, probe);
      var due := s.timers[..Cut(s.timers, s.clock, probe)];
      && Shape(s') && Linear(s') && s'.queue == s.queue && s'.fibers == s.fibers
      && s'.threads[t].held == RunIdle(Callbacks(due))
      && (forall r :: r in due <==> r in s.timers && r.next <= s.clock)
      && |s'.calls| == |s.calls|
      && (forall k :: 0 <= k < |s.calls| ==> s'.calls[k] == s.calls[k].(expired := s.calls[k].expired || HandsOver(due, k)))
  {
    var due := s.timers[..Cut(s.timers, s.clock, probe)];
    var calls := MarkExpired(s.calls, due);
    ExpireCalls(s, probe);
    MarkExpiredLaw(s.calls, due);
    ExpireSplits(s.timers, s.clock, probe);
    CallbacksAt(due);
    ExpiredShape(s, t, calls, Expire(s.timers, s.clock, probe), Callbacks(due), probe);
    forall f: nat
      ensures Tokens(DoExpire(s, t, probe), f) == Due(s.fibers, f)
    {
      assert Tokens(s, f) == Due(s.fibers, f);
      ExpireTokens(s, t, probe, f);
    }
  }

  lemma ExpiredShape(s: State, t: nat, calls: seq<Call>, q: seq<Rec<Closure>>, cbs: seq<Closure>, probe: nat)
    requires Shape(s) && t < |s.threads| && s.threads[t].held.RunIdle?
    requires Grows(s.calls, calls) && CallsOk(calls, s.clock) && |calls| == |s.calls|
    requires (forall k :: 0 <= k < |calls| ==> calls[k].timer == s.calls[k].timer) && q == Expire(s.timers, s.clock, probe)
    requires CallbacksOk(cbs, calls)
    ensures Shape(SetThread(s.(timers := q, calls := calls), t, s.threads[t].(held := RunIdle(cbs))))
  {
    ExpireTimers(s, probe, calls);
    GrowsKeeps(s, calls);
    IdleUpdate(s.(timers := q, calls := calls), t, cbs);
  }

  /** Scheduling the vector moves its callbacks to the queue, in order. */
  lemma ScheduleKeeps(s: State, t: nat)
    requires RuntimeOk(s) && Enabled(s, IdleSchedule(t))
    ensures Step(s, IdleSchedule(t)) == Ok(DoSchedule(s, t))
    ensures var cbs, s' := s.threads[t].held.cbs, DoSchedule(s, t);
      && Shape(s') && Linear(s') && s'.threads[t].held == RunIdle([])
      && s.queue <= s'.queue && |s'.queue| == |s.queue| + |cbs|
      && forall i :: 0 <= i < |cbs| ==> s'.queue[|s.queue| + i] == Task(None, Some(cbs[i]), None)
  {
    var cbs := s.threads[t].held.cbs;
    assert InHand(s.threads[t], t, s.calls);
    CbTasksAt(cbs);
    QueueConcat(s.queue, CbTasks(cbs), s.calls);
    IdleUpdate(PushAll(s, CbTasks(cbs)), t, []);
    forall f: nat
      ensures Tokens(DoSchedule(s, t), f) == Due(s.fibers, f)
    {
      assert Tokens(s, f) == Due(s.fibers, f);
      CbTaskTokens(cbs, f);
      TotalConcat(s.queue, CbTasks(cbs), TaskTok(f));
      TotalUpdate(s.threads, t, s.threads[t].(held := RunIdle([])), ThreadTok(f));
    }
  }

  // --------------------------------------------------------------------------- the rest

  lemma IdleLeaves(s: State, t: nat, idle: FState)
    requires RuntimeOk(s) && t < |s.threads| && s.threads[t].held == RunIdle([]) && (idle == HOLD || idle == TERM)
    ensures var s' := SetThread(s, t, s.threads[t].(held := Nothing, idle := idle));
      Shape(s') && Linear(s')
  {
    var th := s.threads[t];
    var th' := th.(held := Nothing, idle := idle);
    assert ThreadOk(s.fibers, th, t);
    forall g | 0 <= g < |s.fibers| && s.fibers[g].owner == Some(t)
      ensures Has(th', g)
    {
      assert FiberOk(s.fibers[g], g, s.threads);
    }
    OwnThread(s.fibers, s.threads, t, th');
    HandsUpdate(s.threads, s.calls, t, th');
    var s' := SetThread(s, t, th');
    forall f: nat
      ensures Tokens(s', f) == Due(s'.fibers, f)
    {
      assert Tokens(s, f) == Due(s.fibers, f);
      TotalUpdate(s.threads, t, th', ThreadTok(f));
    }
  }

  lemma TickKeeps(s: State, ms: nat)
    requires RuntimeOk(s)
    ensures Shape(s.(clock := s.clock + ms)) && Linear(s.(clock := s.clock + ms))
  {
    forall k | 0 <= k < |s.calls|
      ensures CallOk(s.calls[k], k, s.clock + ms)
    {
      assert CallOk(s.calls[k], k, s.clock);
    }
    LinearSame(s, s.(clock := s.clock + ms));
  }
}
