/** Whole runs of the event poller: every registration that succeeded is pending,
    delivered once, or removed by delEvent, and nothing else is ever delivered. */
module PollerRuns {
  import opened Prelude
  import opened Tasks
  import opened Poller
  import opened PollerLaws

  datatype Op =
    | Add(fd: nat, ev: Event, self: nat, cb: Option<Closure>, fails: bool)
    | Del(fd: nat, ev: Event, fails: bool)
    | Cancel(fd: nat, ev: Event, fails: bool)
    | CancelEach(fd: nat, fails: bool)
    | Report(fd: nat, reported: Mask, hangup: bool, fails: bool)

  /** The poller together with the history of the run. */
  datatype Log = Log(poller: PollState, registered: seq<Task>, delivered: seq<Task>, removed: seq<Task>)

  function Apply(p: PollState, op: Op): Outcome
    requires |p.ctxs| >= 32
  {
    match op
    case Add(fd, ev, self, cb, fails) => AddEvent(p, fd, ev, self, cb, fails)
    case Del(fd, ev, fails) => DelEvent(p, fd, ev, fails)
    case Cancel(fd, ev, fails) => CancelEvent(p, fd, ev, fails)
    case CancelEach(fd, fails) => CancelAll(p, fd, fails)
    case Report(fd, reported, hangup, fails) =>
      // epoll only reports descriptors that were registered with it
      if fd < |p.ctxs| then Ready(p, fd, reported, hangup, fails) else Done(p, false, [])
  }

  /** One operation and its history; None when an assertion of the source fails. */
  function Next(l: Log, op: Op): Option<Log>
    requires |l.poller.ctxs| >= 32
  {
    match Apply(l.poller, op)
    case Abort(_) => None
    case Done(p, ok, tasks) =>
      Some(Log(p,
               if op.Add? && ok then l.registered + [Work(op.self, op.cb)] else l.registered,
               l.delivered + tasks,
               if op.Del? && ok then l.removed + [Taken(l.poller.ctxs[op.fd].Get(op.ev))] else l.removed))
  }

  /** The run that performs `ops` from `l`, while no assertion fails. */
  ghost predicate Reaches(l: Log, ops: seq<Op>, l': Log)
    decreases |ops|
  {
    if ops == [] then l' == l
    else |l.poller.ctxs| >= 32 && Next(l, ops[0]).Some? && Reaches(Next(l, ops[0]).value, ops[1..], l')
  }

  const START := Log(INITIAL, [], [], [])

  ghost predicate Balanced(l: Log, w: Task -> nat) {
    Total(l.registered, w) == Pending(l.poller.ctxs, w) + Total(l.delivered, w) + Total(l.removed, w)
  }

  ghost predicate AllReal(tasks: seq<Task>) {
    forall t :: t in tasks ==> t.NonEmpty()
  }

  /** An assertion fails only for an addEvent of an event already registered or a stale report. */
  ghost predicate Misuse(p: PollState, op: Op) {
    match op
    case Add(fd, ev, _, _, _) => fd < |p.ctxs| && p.ctxs[fd].events.Has(ev)
    case Report(fd, reported, hangup, fails) => fd < |p.ctxs| && !fails && Stale(p.ctxs[fd], reported, hangup)
    case _ => false
  }

  lemma StepKeeps(l: Log, op: Op, w: Task -> nat)
    requires Inv(l.poller) && AllReal(l.delivered) && Balanced(l, w)
    ensures Next(l, op).None? <==> Misuse(l.poller, op)
    ensures Next(l, op).Some? ==>
      var l' := Next(l, op).value;
      Inv(l'.poller) && AllReal(l'.delivered) && Balanced(l', w)
  {
    var p := l.poller;
    match op
    case Add(fd, ev, self, cb, fails) =>
      AddEventLaw(p, fd, ev, self, cb, fails, w);
      TotalAppend(l.registered, Work(self, cb), w);
      assert l.delivered + [] == l.delivered;
    case Del(fd, ev, fails) =>
      DelEventLaw(p, fd, ev, fails, w);
      if fd < |p.ctxs| { TotalAppend(l.removed, Taken(p.ctxs[fd].Get(ev)), w); }
      assert l.delivered + [] == l.delivered;
    case Cancel(fd, ev, fails) =>
      CancelEventLaw(p, fd, ev, fails, w);
      TotalConcat(l.delivered, CancelEvent(p, fd, ev, fails).tasks, w);
    case CancelEach(fd, fails) =>
      CancelAllLaw(p, fd, fails, w);
      TotalConcat(l.delivered, CancelAll(p, fd, fails).tasks, w);
    case Report(fd, reported, hangup, fails) =>
      if fd < |p.ctxs| {
        ReadyLaw(p, fd, reported, hangup, fails, w);
        if Ready(p, fd, reported, hangup, fails).Done? {
          TotalConcat(l.delivered, Ready(p, fd, reported, hangup, fails).tasks, w);
        }
      } else {
        assert l.delivered + [] == l.delivered;
      }
  }

  lemma {:induction false} RunKeeps(l: Log, ops: seq<Op>, l': Log, w: Task -> nat)
    requires Inv(l.poller) && AllReal(l.delivered) && Balanced(l, w)
    requires Reaches(l, ops, l')
    ensures Inv(l'.poller) && AllReal(l'.delivered) && Balanced(l', w)
    decreases |ops|
  {
    if ops != [] {
      StepKeeps(l, ops[0], w);
      RunKeeps(Next(l, ops[0]).value, ops[1..], l', w);
    }
  }

  /** In every reachable state: the kernel mirrors the contexts, the slots match the bits, the pending
      count is the number of bits set, and each piece of work was registered as often as it is
      pending, delivered and removed together. */
  lemma EveryRun(ops: seq<Op>, l: Log, x: Task)
    requires Reaches(START, ops, l)
    ensures Inv(l.poller) && AllReal(l.delivered)
    ensures Total(l.registered, Is(x)) ==
            Pending(l.poller.ctxs, Is(x)) + Total(l.delivered, Is(x)) + Total(l.removed, Is(x))
  {
    InitialInv();
    GrowthIsEmpty([], 32, Is(x));
    assert [] + seq(32, _ => EMPTY_CTX) == INITIAL.ctxs;
    RunKeeps(START, ops, l, Is(x));
  }

  lemma {:induction false} CountAtMost(s: seq<Task>, x: Task)
    requires forall i, j :: 0 <= i < j < |s| ==> s[i] != s[j]
    ensures Total(s, Is(x)) <= 1
    ensures x in s <==> Total(s, Is(x)) == 1
  {
    if s != [] {
      CountAtMost(s[1..], x);
    }
  }

  /** Work registered once is delivered at most once, and while it is pending it has not been delivered. */
  lemma DeliveredAtMostOnce(ops: seq<Op>, l: Log, x: Task)
    requires Reaches(START, ops, l)
    requires forall i, j :: 0 <= i < j < |l.registered| ==> l.registered[i] != l.registered[j]
    ensures Total(l.delivered, Is(x)) <= 1
    ensures x in l.registered ==>
      Pending(l.poller.ctxs, Is(x)) + Total(l.delivered, Is(x)) + Total(l.removed, Is(x)) == 1
    ensures x !in l.registered ==> Total(l.delivered, Is(x)) == 0
  {
    EveryRun(ops, l, x);
    CountAtMost(l.registered, x);
  }

  /** The stale-report abort is reachable: register READ and WRITE, let epoll report both, cancel WRITE
      before idle takes the descriptor lock. */
  lemma StaleReportAborts()
    ensures var both := Mask(true, true);
      exists l ::
        && Reaches(START, [Add(5, READ, 0, None, false), Add(5, WRITE, 1, None, false), Cancel(5, WRITE, false)], l)
        && Apply(l.poller, Report(5, both, false, false)) == Abort(88)
  {
    var ops := [Add(5, READ, 0, None, false), Add(5, WRITE, 1, None, false), Cancel(5, WRITE, false)];
    var l1 := Next(START, ops[0]).value;
    var l2 := Next(l1, ops[1]).value;
    var l3 := Next(l2, ops[2]).value;
    assert ops[1..][1..] == [ops[2]];
    assert Reaches(l3, [], l3);
    assert Reaches(l2, ops[2..], l3);
    assert Reaches(l1, ops[1..], l3);
    assert Reaches(START, ops, l3);
    assert l3.poller.ctxs[5].events == Mask(true, false);
  }
}
