/** Concrete runs that show what the runtime does not promise: both ways in which a time limit is missed. */
module RuntimeExamples {
  import opened Prelude
  import opened Tasks
  import opened Poller
  import opened Timers
  import opened Runtime
  import opened RuntimeLimits

  // Thread 0 starts a call with a limit of 10 ms and sets its timer. In the first run the deadline check comes before
  // the call registers its event, in the second epoll_ctl refuses to take the event out.

  const SETUP := [SpawnFiber(None), Pick(0), Enter(0), IoBegin(0, Io, 5, READ, Some(10)), IoTimer(0, 0)]
  const EXPIRY := [Pick(1), Tick(10), IdleExpire(1, 0)]
  const CHECK := [IdleSchedule(1), IdleYield(1), Pick(1), Enter(1), RunClosure(1)]

  const CALLER := Task(Some(0), None, None)
  const CHECKER := Task(None, Some(Timeout(0)), None)
  const LIMIT: Rec<Closure> := Rec(0, 10, 10, Timeout(0), false)
  const FRESH := Thread(Nothing, None, INIT, true)

  const TIMED := Call(0, Io, 5, READ, Some(10), 0, Timed, Some(LIMIT), false, true, false, false)

  const ARMED := State([], [Fiber(EXEC, false, Some(0), Some(0))], [Thread(RunFiber(0, CALLER), None, INIT, true), FRESH], 1,
                       INITIAL, [LIMIT], {0}, [TIMED], 0, [CALLER], [])

  /** The run that performs `ops` from `s`, as far as it is possible. */
  function Play(s: State, ops: seq<Op>): Option<State>
    decreases |ops|
  {
    if ops == [] then Some(s)
    else if Enabled(s, ops[0]) && Step(s, ops[0]).Ok? then Play(Step(s, ops[0]).state, ops[1..])
    else None
  }

  lemma {:induction false} PlayReaches(s: State, ops: seq<Op>, s1: State, more: seq<Op>, s': State)
    requires Play(s, ops) == Some(s1) && Reaches(s1, more, s')
    ensures Reaches(s, ops + more, s')
    decreases |ops|
  {
    if ops == [] {
      assert ops + more == more;
    } else {
      assert (ops + more)[1..] == ops[1..] + more;
      PlayReaches(Step(s, ops[0]).state, ops[1..], s1, more, s');
    }
  }

  /** The steps one at a time. */
  lemma PlayOne(s: State, op: Op, rest: seq<Op>)
    requires Enabled(s, op) && Step(s, op).Ok?
    ensures Play(s, [op] + rest) == Play(Step(s, op).state, rest)
  {
    assert ([op] + rest)[1..] == rest;
  }

  /** The fiber has been scheduled and picked. */
  const CHOSEN := State([], [Fiber(INIT, false, None, Some(0))], [Thread(Picked(CALLER), None, INIT, true), FRESH], 1,
                        INITIAL, [], {}, [], 0, [CALLER], [])

  lemma PlayStart()
    ensures Play(Start(2), SETUP[..2]) == Some(CHOSEN)
  {
    var s0 := Start(2);
    assert s0.threads == [FRESH, FRESH];
    var s1 := Step(s0, SETUP[0]).state;
    assert s1 == s0.(queue := [CALLER], fibers := [Fiber(INIT, false, None, None)], scheduled := [CALLER]);
    var s2 := Step(s1, SETUP[1]).state;
    assert s2 == CHOSEN;
    assert SETUP[..2] == [SETUP[0]] + ([SETUP[1]] + []);
    PlayOne(s0, SETUP[0], [SETUP[1]] + []);
    PlayOne(s1, SETUP[1], []);
  }

  lemma PlaySetUp()
    ensures Play(CHOSEN, SETUP[2..]) == Some(ARMED)
  {
    var s3 := Step(CHOSEN, SETUP[2]).state;
    var s4 := Step(s3, SETUP[3]).state;
    var s5 := Step(s4, SETUP[4]).state;
    assert s5 == ARMED;
    assert SETUP[2..] == [SETUP[2]] + ([SETUP[3]] + ([SETUP[4]] + []));
    PlayOne(CHOSEN, SETUP[2], [SETUP[3]] + ([SETUP[4]] + []));
    PlayOne(s3, SETUP[3], [SETUP[4]] + []);
    PlayOne(s4, SETUP[4], []);
  }

  // ------------------------------------------------------------- the limit runs out

  /** The call of fiber 0 has its timer set, and thread 1 is free. */
  predicate Before(s: State) {
    && s.queue == [] && s.timers == [LIMIT] && s.clock == 0 && |s.fibers| == 1 && |s.calls| == 1
    && s.calls[0].live && !s.calls[0].cancelled && |s.threads| == 2 && s.threads[1] == FRESH
  }

  /** Thread 1, in idle, has the deadline check in its vector. */
  function Taken10(s: State): State
    requires Before(s)
  {
    s.(clock := 10, timers := [], calls := [s.calls[0].(expired := true)],
       threads := [s.threads[0], Thread(RunIdle([Timeout(0)]), None, EXEC, true)])
  }

  lemma LimitExpires(s: State)
    requires |s.threads| == 2 && Before(s.(clock := 0, threads := [s.threads[0], FRESH])) && s.clock == 10
    requires s.threads[1] == Thread(RunIdle([]), None, EXEC, true)
    ensures DoExpire(s, 1, 0) == s.(timers := [], calls := [s.calls[0].(expired := true)],
                                    threads := [s.threads[0], Thread(RunIdle([Timeout(0)]), None, EXEC, true)])
  {
    var q := [LIMIT];
    assert LowerBound(q, 10, 0) == 0 && SkipDue(q, 1, 10) == 1 && SkipDue(q, 0, 10) == 1;
    assert q[..1] == q && q[1..] == [];
    assert Rearm([], q, 10) == Rearm([], q[1..], 10) == [];
    assert Callbacks(q) == [Timeout(0)] + Callbacks(q[1..]) == [Timeout(0)];
    assert MarkExpired(s.calls, q) == MarkExpired(s.calls[0 := s.calls[0].(expired := true)], q[1..]);
  }

  lemma PlayExpiry(s: State)
    requires Before(s)
    ensures Play(s, EXPIRY) == Some(Taken10(s))
  {
    var s1 := Step(s, EXPIRY[0]).state;
    assert s1 == s.(threads := [s.threads[0], Thread(RunIdle([]), None, EXEC, true)]);
    var s2 := Step(s1, EXPIRY[1]).state;
    LimitExpires(s2);
    assert EXPIRY == [EXPIRY[0]] + ([EXPIRY[1]] + ([EXPIRY[2]] + []));
    PlayOne(s, EXPIRY[0], [EXPIRY[1]] + ([EXPIRY[2]] + []));
    PlayOne(s1, EXPIRY[1], [EXPIRY[2]] + []);
    PlayOne(s2, EXPIRY[2], []);
  }

  /** Thread 1 has executed the first half of the check. */
  function Flagged(s: State): State
    requires Before(s)
  {
    s.(clock := 10, timers := [], calls := [s.calls[0].(expired := true, cancelled := true)],
       fibers := s.fibers + [Fiber(EXEC, false, None, Some(1))], active := s.active + 1, scheduled := s.scheduled + [CHECKER],
       threads := [s.threads[0], Thread(RunCb(1, CHECKER, Revoke(0)), Some(1), HOLD, true)])
  }

  lemma PlayPicked(s: State)
    requires Before(s)
    ensures var s1 := Taken10(s);
      Play(s1, CHECK[..3]) == Some(s1.(scheduled := s.scheduled + [CHECKER], active := s.active + 1,
                                       threads := [s.threads[0], Thread(Picked(CHECKER), None, HOLD, true)]))
  {
    var s1 := Taken10(s);
    var s2 := Step(s1, CHECK[0]).state;
    assert CbTasks([Timeout(0)]) == [CHECKER];
    assert s2 == s1.(queue := [CHECKER], scheduled := s.scheduled + [CHECKER],
                     threads := [s.threads[0], Thread(RunIdle([]), None, EXEC, true)]);
    var s3 := Step(s2, CHECK[1]).state;
    assert s3 == s2.(threads := [s.threads[0], Thread(Nothing, None, HOLD, true)]);
    var s4 := Step(s3, CHECK[2]).state;
    assert FirstEligible([CHECKER], s3.fibers, 1) == 0 && [CHECKER][..0] + [CHECKER][1..] == [];
    assert s4 == s3.(queue := [], active := s.active + 1, threads := [s.threads[0], Thread(Picked(CHECKER), None, HOLD, true)]);
    assert CHECK[..3] == [CHECK[0]] + ([CHECK[1]] + ([CHECK[2]] + []));
    PlayOne(s1, CHECK[0], [CHECK[1]] + ([CHECK[2]] + []));
    PlayOne(s2, CHECK[1], [CHECK[2]] + []);
    PlayOne(s3, CHECK[2], []);
  }

  lemma PlayFlag(s: State, s4: State)
    requires Before(s)
    requires s4 == Taken10(s).(scheduled := s.scheduled + [CHECKER], active := s.active + 1,
                               threads := [s.threads[0], Thread(Picked(CHECKER), None, HOLD, true)])
    ensures Play(s4, CHECK[3..]) == Some(Flagged(s))
  {
    var s5 := Step(s4, CHECK[3]).state;
    assert s5 == s4.(fibers := s.fibers + [Fiber(EXEC, false, None, Some(1))],
                     threads := [s.threads[0], Thread(RunCb(1, CHECKER, Execute(Timeout(0))), Some(1), HOLD, true)]);
    var s6 := Step(s5, CHECK[4]).state;
    assert s6 == Flagged(s);
    assert CHECK[3..] == [CHECK[3]] + ([CHECK[4]] + []);
    PlayOne(s4, CHECK[3], [CHECK[4]] + []);
    PlayOne(s5, CHECK[4], []);
  }

  /** From any such state: the flag is set, and what follows follows. */
  lemma FlaggedReached(s: State, more: seq<Op>, s': State)
    requires Before(s) && Reaches(Flagged(s), more, s')
    ensures Reaches(s, EXPIRY + (CHECK[..3] + (CHECK[3..] + more)), s')
  {
    var s4 := Taken10(s).(scheduled := s.scheduled + [CHECKER], active := s.active + 1,
                          threads := [s.threads[0], Thread(Picked(CHECKER), None, HOLD, true)]);
    PlayFlag(s, s4);
    PlayReaches(s4, CHECK[3..], Flagged(s), more, s');
    PlayPicked(s);
    PlayReaches(Taken10(s), CHECK[..3], s4, CHECK[3..] + more, s');
    PlayExpiry(s);
    PlayReaches(s, EXPIRY, Taken10(s), CHECK[..3] + (CHECK[3..] + more), s');
  }

  /** From the start to the armed timer. */
  lemma ArmedReached(more: seq<Op>, s': State)
    requires Reaches(ARMED, more, s')
    ensures Reaches(Start(2), SETUP[..2] + (SETUP[2..] + more), s')
  {
    PlaySetUp();
    PlayReaches(CHOSEN, SETUP[2..], ARMED, more, s');
    PlayStart();
    PlayReaches(Start(2), SETUP[..2], CHOSEN, SETUP[2..] + more, s');
  }

  // ------------------------------------------------------------------- the two runs

  lemma ReachesTwo(s: State, a: Op, b: Op)
    requires Enabled(s, a) && Step(s, a).Ok?
    requires Enabled(Step(s, a).state, b) && Step(Step(s, a).state, b).Ok?
    ensures Reaches(s, [a, b], Step(Step(s, a).state, b).state)
  {
    assert [a, b][1..] == [b] && [b][1..] == [];
  }

  /** The check finds nothing to cancel, and then the call registers. */
  lemma TooEarly()
    ensures exists ops, s :: Reaches(Start(2), ops, s) && Overdue(s, 0)
  {
    var s := Flagged(ARMED);
    var s1 := Step(s, RevokeEvent(1, false)).state;
    var s2 := Step(s1, IoRegister(0, false)).state;
    ReachesTwo(s, RevokeEvent(1, false), IoRegister(0, false));
    assert Overdue(s2, 0);
    FlaggedReached(ARMED, [RevokeEvent(1, false), IoRegister(0, false)], s2);
    ArmedReached(EXPIRY + (CHECK[..3] + (CHECK[3..] + [RevokeEvent(1, false), IoRegister(0, false)])), s2);
  }

  /** epoll_ctl refuses, and the call sleeps on. */
  lemma SleepsOn(s: State) returns (s': State)
    requires Before(s) && ParkedOn(s.poll.ctxs, s.calls[0])
    ensures Reaches(s, EXPIRY + (CHECK[..3] + (CHECK[3..] + [RevokeEvent(1, true)])), s') && Overdue(s', 0)
  {
    s' := Step(Flagged(s), RevokeEvent(1, true)).state;
    assert Reaches(Flagged(s), [RevokeEvent(1, true)], s');
    FlaggedReached(s, [RevokeEvent(1, true)], s');
  }

  /** The call registers and goes to sleep. */
  lemma GoesToSleep() returns (s: State)
    ensures Before(s) && ParkedOn(s.poll.ctxs, s.calls[0])
    ensures Reaches(ARMED, [IoRegister(0, false), Yield(0)], s)
  {
    var s1 := Step(ARMED, IoRegister(0, false)).state;
    s := Step(s1, Yield(0)).state;
    ReachesTwo(ARMED, IoRegister(0, false), Yield(0));
  }

  lemma {:induction false} ReachesMore(s: State, ops: seq<Op>, s1: State, more: seq<Op>, s': State)
    requires Reaches(s, ops, s1) && Reaches(s1, more, s')
    ensures Reaches(s, ops + more, s')
    decreases |ops|
  {
    if ops == [] {
      assert ops + more == more;
    } else {
      assert (ops + more)[1..] == ops[1..] + more;
      ReachesMore(Step(s, ops[0]).state, ops[1..], s1, more, s');
    }
  }

  /** epoll_ctl refuses the cancellation of a sleeping call's event. */
  lemma Refused()
    ensures exists ops, s :: Reaches(Start(2), ops, s) && Overdue(s, 0)
  {
    var s := GoesToSleep();
    var s1 := SleepsOn(s);
    var more := EXPIRY + (CHECK[..3] + (CHECK[3..] + [RevokeEvent(1, true)]));
    ReachesMore(ARMED, [IoRegister(0, false), Yield(0)], s, more, s1);
    ArmedReached([IoRegister(0, false), Yield(0)] + more, s1);
  }
}
