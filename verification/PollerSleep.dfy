/** One poller thread asking for the next deadline, blocking in epoll_wait and being
    tickled by other threads: does it ever sleep past a timer? */
module PollerSleep {
  import opened Timers

  const MAX_TIMEOUT := 3000
  const NO_TIMEOUT := 0xFFFF_FFFF_FFFF_FFFF

  /** The argument idle gives epoll_wait. */
  function WaitFor<C>(q: seq<Rec<C>>, now: nat): nat {
    var next := NextTimer(q, now);
    if next == 0 || next > MAX_TIMEOUT then MAX_TIMEOUT else next
  }

  /** The poller's own contribution to stopping: getNextTimer answered ~0ull. */
  predicate TimersAllowStop<C>(q: seq<Rec<C>>, now: nat) {
    NextTimer(q, now) == NO_TIMEOUT
  }

  /** stopping waits for ~0ull but an empty set is reported as 0: a poller without timers never stops. */
  lemma StopsIff<C>(q: seq<Rec<C>>, now: nat)
    ensures TimersAllowStop(q, now) <==> q != [] && q[0].next == now + 0xFFFF_FFFF_FFFF_FFFF
    ensures TimersAllowStop(q, now) ==> q != []
  {
  }

  /** The wait ends no later than every deadline, exactly when no timer is due already: a front deadline
      that is due reads as 0, which idle turns into the maximal wait. */
  lemma WaitCoversIff<C>(q: seq<Rec<C>>, now: nat)
    requires Sorted(q)
    ensures (forall r :: r in q ==> now + WaitFor(q, now) <= r.next) <==> (q == [] || q[0].next > now)
  {
    if q != [] {
      assert q[0] in q;
      forall r | r in q
        ensures q[0].next <= r.next
      {
        var i :| 0 <= i < |q| && q[i] == r;
        assert i > 0 ==> Less(q[0].next, q[0].addr, q[i].next, q[i].addr);
      }
    }
  }

  /** `asked` is when getNextTimer ran, `late` whether a timer was due at that moment. */
  datatype Phase =
    | Awake
    | Asked(asked: nat, timeout: nat, late: bool)
    | Blocked(asked: nat, since: nat, timeout: nat, late: bool)

  /** `flushing` counts the threads in addTimer between letting go of the lock and the tickle they owe. */
  datatype State = State(queue: seq<Rec<nat>>, flushing: nat, tickles: nat, clock: nat, phase: Phase)

  datatype Op =
    | Tick(ms: nat)
    | InsertTimer(addr: nat, ms: nat, cb: nat, recurring: bool, made: nat)
    | Flush
    | CancelTimer(addr: nat, next: nat)
    | Tickle
    | Ask
    | Block
    | Return(probe: nat)

  predicate Enabled(s: State, op: Op) {
    match op
    case Ask => s.phase.Awake?
    case Block => s.phase.Asked?
    case Return(_) => s.phase.Blocked?
    case Flush => s.flushing > 0
    // the constructor reads the clock before addTimer takes the lock
    case InsertTimer(addr, _, _, _, made) => made <= s.clock && forall i :: 0 <= i < |s.queue| ==> s.queue[i].addr != addr
    case _ => true
  }

  function Next(s: State, op: Op): State
    requires Enabled(s, op)
  {
    match op
    case Tick(ms) => s.(clock := s.clock + ms)
    case InsertTimer(addr, ms, cb, recurring, made) =>
      var r := Rec(addr, ms, made + ms, cb, recurring);
      var q := Insert(s.queue, r);
      // at_front is computed under the lock, and flushTimer called without it
      s.(queue := q, flushing := if q[0] == r then s.flushing + 1 else s.flushing)
    case Flush => s.(flushing := s.flushing - 1, tickles := s.tickles + 1)
    case CancelTimer(addr, next) => s.(queue := Erase(s.queue, next, addr))
    case Tickle => s.(tickles := s.tickles + 1)
    case Ask =>
      s.(phase := Asked(s.clock, WaitFor(s.queue, s.clock), s.queue != [] && s.queue[0].next <= s.clock))
    case Block => s.(phase := Blocked(s.phase.asked, s.clock, s.phase.timeout, s.phase.late))
    case Return(probe) =>
      // expired callbacks are listed, then the pipe is drained
      s.(queue := Expire(s.queue, s.clock, probe), tickles := 0, phase := Awake)
  }

  ghost predicate CoversAll(q: seq<Rec<nat>>, until: nat) {
    forall r :: r in q ==> until <= r.next
  }

  ghost predicate Inv(s: State) {
    && Sorted(s.queue) && Distinct(s.queue)
    && (s.phase.Blocked? ==> s.phase.asked <= s.phase.since <= s.clock)
    && (s.phase.Asked? ==> s.phase.asked <= s.clock)
    && (!s.phase.Awake? && !s.phase.late ==> s.flushing + s.tickles > 0 || CoversAll(s.queue, s.phase.asked + s.phase.timeout))
  }

  lemma AddKeeps(s: State, addr: nat, ms: nat, cb: nat, recurring: bool, made: nat)
    requires Inv(s) && Enabled(s, InsertTimer(addr, ms, cb, recurring, made))
    ensures Inv(Next(s, InsertTimer(addr, ms, cb, recurring, made)))
  {
    var r := Rec(addr, ms, made + ms, cb, recurring);
    AddedKeeps(s, r, Insert(s.queue, r), Next(s, InsertTimer(addr, ms, cb, recurring, made)));
  }

  lemma AddedKeeps(s: State, r: Rec<nat>, q: seq<Rec<nat>>, s': State)
    requires Inv(s) && !Holds(s.queue, r.addr) && q == Insert(s.queue, r)
    requires s' == s.(queue := q, flushing := if q[0] == r then s.flushing + 1 else s.flushing)
    ensures Inv(s')
  {
    InsertKeeps(s.queue, r);
    OrderedKeeps(s, r, q, s');
  }

  lemma OrderedKeeps(s: State, r: Rec<nat>, q: seq<Rec<nat>>, s': State)
    requires Inv(s) && q != [] && Sorted(q) && Distinct(q) && forall x :: x in q <==> x in s.queue || x == r
    requires s' == s.(queue := q, flushing := if q[0] == r then s.flushing + 1 else s.flushing)
    ensures Inv(s')
  {
    if !s.phase.Awake? && CoversAll(s.queue, s.phase.asked + s.phase.timeout) {
      InsertCovers(s.queue, q, r, s.phase.asked + s.phase.timeout);
    }
  }

  /** A new timer that is not the first is not due before the others. */
  lemma InsertCovers(q: seq<Rec<nat>>, q': seq<Rec<nat>>, r: Rec<nat>, until: nat)
    requires q' != [] && Sorted(q') && (forall x :: x in q' <==> x in q || x == r) && CoversAll(q, until)
    ensures q'[0] == r || CoversAll(q', until)
  {
    if q'[0] != r {
      assert q'[0] in q;
      FrontFirst(q');
    }
  }

  lemma CancelKeeps(s: State, addr: nat, next: nat)
    requires Inv(s)
    ensures Inv(Next(s, CancelTimer(addr, next)))
  {
    if Find(s.queue, next, addr).Some? {
      EraseKeeps(s.queue, Find(s.queue, next, addr).value);
    }
  }

  lemma StepKeeps(s: State, op: Op)
    requires Inv(s) && Enabled(s, op)
    ensures Inv(Next(s, op))
  {
    match op
    case InsertTimer(addr, ms, cb, recurring, made) => AddKeeps(s, addr, ms, cb, recurring, made);
    case CancelTimer(addr, next) => CancelKeeps(s, addr, next);
    case Ask => WaitCoversIff(s.queue, s.clock);
    case Return(probe) => ExpireSplits(s.queue, s.clock, probe);
    case _ =>
  }

  /** The time epoll_wait is given: until the front deadline, but 3000 ms at most; and 3000 ms if there is no timer or
      the front one is due already. Asking changes nothing but what the poller knows. */
  lemma AskIs(s: State)
    requires Enabled(s, Ask)
    ensures Next(s, Ask) == s.(phase := Next(s, Ask).phase)
    ensures var p := Next(s, Ask).phase;
      && p.Asked? && p.asked == s.clock
      && (s.queue == [] ==> p.timeout == 3000 && !p.late)
      && (s.queue != [] && s.queue[0].next <= s.clock ==> p.timeout == 3000 && p.late)
      && (s.queue != [] && s.clock < s.queue[0].next <= s.clock + 3000 ==> s.clock + p.timeout == s.queue[0].next && !p.late)
      && (s.queue != [] && s.queue[0].next > s.clock + 3000 ==> p.timeout == 3000 && !p.late)
  {
  }

  lemma FrontFirst(q: seq<Rec<nat>>)
    requires Sorted(q) && q != []
    ensures forall r :: r in q ==> q[0].next <= r.next
  {
    forall r | r in q
      ensures q[0].next <= r.next
    {
      var i :| 0 <= i < |q| && q[i] == r;
      assert i > 0 ==> Less(q[0].next, q[0].addr, q[i].next, q[i].addr);
    }
  }

  ghost predicate Reaches(s: State, ops: seq<Op>, s': State)
    decreases |ops|
  {
    if ops == [] then s' == s else Enabled(s, ops[0]) && Reaches(Next(s, ops[0]), ops[1..], s')
  }

  const START := State([], 0, 0, 0, Awake)

  lemma {:induction false} RunKeeps(s: State, ops: seq<Op>, s': State)
    requires Inv(s) && Reaches(s, ops, s')
    ensures Inv(s')
    decreases |ops|
  {
    if ops != [] {
      StepKeeps(s, ops[0]);
      RunKeeps(Next(s, ops[0]), ops[1..], s');
    }
  }

  /** No lost wake-up: while the poller is blocked, and no timer was due when it asked, either a tickle is waiting in
      the pipe or owed by a thread that is about to send it, or epoll_wait ends no later after any deadline
      than it started after the question. */
  lemma NoLostWakeup(ops: seq<Op>, s: State, r: Rec<nat>)
    requires Reaches(START, ops, s)
    requires s.phase.Blocked? && !s.phase.late && r in s.queue
    ensures s.flushing + s.tickles > 0 || s.phase.since + s.phase.timeout <= r.next + (s.phase.since - s.phase.asked)
  {
    RunKeeps(START, ops, s);
  }

  const LATE: Rec<nat> := Rec(0, 10, 10, 7, false)
  const NEW := InsertTimer(0, 10, 7, false, 0)

  lemma FirstAdded(s: State)
    requires s.queue == [] && s.clock == 0
    ensures Enabled(s, NEW) && Next(s, NEW) == s.(queue := [LATE], flushing := s.flushing + 1)
  {
    assert Insert([], LATE) == [LATE];
  }

  /** Between the insertion and its tickle there is none in the pipe, and the wait is too long: what keeps the
      wake-up from being lost is only the tickle still owed. */
  lemma TickleIsOwed()
    ensures exists ops, s, r ::
      && Reaches(START, ops, s) && s.phase.Blocked? && !s.phase.late && r in s.queue
      && s.tickles == 0 && s.flushing == 1 && s.phase.since + s.phase.timeout > r.next + (s.phase.since - s.phase.asked)
  {
    var s1 := State([], 0, 0, 0, Asked(0, MAX_TIMEOUT, false));
    var s2 := State([], 0, 0, 0, Blocked(0, 0, MAX_TIMEOUT, false));
    var s3 := State([LATE], 1, 0, 0, Blocked(0, 0, MAX_TIMEOUT, false));
    FirstAdded(s2);
    ReachesOne(s2, NEW, s3);
    ReachesMore(s1, Block, [NEW], s3);
    ReachesMore(START, Ask, [Block, NEW], s3);
    assert LATE in s3.queue;
  }

  lemma NothingDue()
    ensures Next(State([LATE], 0, 1, 0, Blocked(0, 0, 10, false)), Return(0)) == State([LATE], 0, 0, 0, Awake)
  {
    assert Cut([LATE], 0, 0) == 0;
  }

  /** The new timer's tickle is used up by a first return of epoll_wait. */
  lemma FirstRound()
    ensures Reaches(START, [NEW, Flush, Ask, Block, Return(0)], State([LATE], 0, 0, 0, Awake))
  {
    FirstAdded(START);
    FirstReturn();
    ReachesMore(START, NEW, [Flush, Ask, Block, Return(0)], State([LATE], 0, 0, 0, Awake));
  }

  lemma FirstReturn()
    ensures Reaches(State([LATE], 1, 0, 0, Awake), [Flush, Ask, Block, Return(0)], State([LATE], 0, 0, 0, Awake))
  {
    var s0 := State([LATE], 1, 0, 0, Awake);
    var s1 := State([LATE], 0, 1, 0, Awake);
    var s2 := State([LATE], 0, 1, 0, Asked(0, 10, false));
    var s3 := State([LATE], 0, 1, 0, Blocked(0, 0, 10, false));
    var s4 := State([LATE], 0, 0, 0, Awake);
    NothingDue();
    ReachesOne(s3, Return(0), s4);
    ReachesMore(s2, Block, [Return(0)], s4);
    ReachesMore(s1, Ask, [Block, Return(0)], s4);
    ReachesMore(s0, Flush, [Ask, Block, Return(0)], s4);
  }

  /** Then the timer falls due before the next question. */
  lemma SecondRound()
    ensures Reaches(State([LATE], 0, 0, 0, Awake), [Tick(10), Ask, Block], State([LATE], 0, 0, 10, Blocked(10, 10, MAX_TIMEOUT, true)))
  {
    var s4 := State([LATE], 0, 0, 0, Awake);
    var s5 := State([LATE], 0, 0, 10, Awake);
    var s6 := State([LATE], 0, 0, 10, Asked(10, MAX_TIMEOUT, true));
    var s7 := State([LATE], 0, 0, 10, Blocked(10, 10, MAX_TIMEOUT, true));
    ReachesOne(s6, Block, s7);
    ReachesMore(s5, Ask, [Block], s7);
    ReachesMore(s4, Tick(10), [Ask, Block], s7);
  }

  lemma ReachesOne(s: State, op: Op, s': State)
    requires Enabled(s, op) && s' == Next(s, op)
    ensures Reaches(s, [op], s')
  {
    assert [op][1..] == [];
  }

  lemma ReachesMore(s: State, op: Op, ops: seq<Op>, s': State)
    requires Enabled(s, op) && Reaches(Next(s, op), ops, s')
    ensures Reaches(s, [op] + ops, s')
  {
    assert ([op] + ops)[1..] == ops;
  }

  lemma {:induction false} ReachesAll(s: State, a: seq<Op>, mid: State, b: seq<Op>, s': State)
    requires Reaches(s, a, mid) && Reaches(mid, b, s')
    ensures Reaches(s, a + b, s')
    decreases |a|
  {
    if a == [] {
      assert a + b == b;
    } else {
      ReachesAll(Next(s, a[0]), a[1..], mid, b, s');
      assert a + b == [a[0]] + (a[1..] + b);
      ReachesMore(s, a[0], a[1..] + b, s');
    }
  }

  /** A timer that is due already when the poller asks is overslept: it fell due just before the question, and no
      tickle is pending or owed. */
  lemma DueTimerIsOverslept()
    ensures exists ops, s, r ::
      && Reaches(START, ops, s) && s.phase.Blocked? && s.phase.late && r in s.queue
      && s.flushing + s.tickles == 0 && s.phase.since + s.phase.timeout == r.next + MAX_TIMEOUT
  {
    FirstRound();
    SecondRound();
    var s := State([LATE], 0, 0, 10, Blocked(10, 10, MAX_TIMEOUT, true));
    var a, b := [NEW, Flush, Ask, Block, Return(0)], [Tick(10), Ask, Block];
    ReachesAll(START, a, State([LATE], 0, 0, 0, Awake), b, s);
    assert LATE in s.queue;
  }
}
