/** The invariants of the runtime, one predicate per concern, each reading only the
    components it is about. */
module RuntimeInv {
  import opened Prelude
  import opened Tasks
  import opened Poller
  import opened PollerLaws
  import opened Timers
  import opened Runtime

  // ------------------------------------------------------------------ wake tokens

  /** A queue entry or event slot holds a wake token of fiber `f` if it will run `f` or execute f's sleep closure. */
  function TaskTok(f: nat): Task -> nat {
    (t: Task) => (if t.fiber == Some(f) then 1 else 0) + (if t.cb == Some(Wake(f)) then 1 else 0)
  }

  function TimerTok(f: nat): Rec<Closure> -> nat {
    (r: Rec<Closure>) => if r.cb == Wake(f) then 1 else 0
  }

  function ClosureTok(f: nat): Closure -> nat {
    (c: Closure) => if c == Wake(f) then 1 else 0
  }

  /** A thread holds a token only as a sleep closure: one that it picked and has not executed yet, or one in
      idle's vector on the way from the timers to the queue. */
  ghost function HandTok(h: Held, f: nat): nat {
    match h
    case Picked(task) => if task.cb == Some(Wake(f)) then 1 else 0
    case RunCb(_, _, Execute(c)) => if c == Wake(f) then 1 else 0
    case RunIdle(cbs) => Total(cbs, ClosureTok(f))
    case _ => 0
  }

  ghost function ThreadTok(f: nat): Thread -> nat {
    (th: Thread) => HandTok(th.held, f)
  }

  /** The number of wake tokens of `f` in the whole system. */
  ghost function Tokens(s: State, f: nat): nat {
    Total(s.queue, TaskTok(f)) + Pending(s.poll.ctxs, TaskTok(f)) + Total(s.timers, TimerTok(f))
    + Total(s.threads, ThreadTok(f))
  }

  /** How many it must have: one while it waits to run or is about to, none while a thread has it or it has ended. */
  function Need(fb: Fiber): nat {
    match fb.state
    case EXEC => if fb.armed then 1 else 0
    case HOLD => if fb.owner.Some? then 0 else 1
    case INIT => if fb.owner.Some? then 0 else 1
    case _ => 0
  }

  function Due(fibers: seq<Fiber>, f: nat): nat {
    if f < |fibers| then Need(fibers[f]) else 0
  }

  ghost predicate Linear(s: State) {
    forall f: nat :: Tokens(s, f) == Due(s.fibers, f)
  }

  // ---------------------------------------------------------------- who owns a fiber

  predicate Has(th: Thread, f: nat) {
    || th.cbFiber == Some(f)
    || (th.held.Picked? && th.held.task.fiber == Some(f))
    || (th.held.RunFiber? && th.held.fiber == f)
  }

  ghost predicate CbFiberOk(fibers: seq<Fiber>, th: Thread, t: nat) {
    th.cbFiber.Some? ==>
      var g := th.cbFiber.value;
      && g < |fibers| && fibers[g].owner == Some(t)
      && (!th.held.RunCb? ==> fibers[g].state == INIT && !fibers[g].armed && fibers[g].call.None?)
  }

  ghost predicate HeldOk(fibers: seq<Fiber>, th: Thread, t: nat) {
    match th.held
    case Nothing => true
    case Picked(task) =>
      task.fiber.Some? ==>
        var f := task.fiber.value;
        && f < |fibers| && fibers[f].owner == Some(t) && th.cbFiber != Some(f)
        && (fibers[f].state == INIT || fibers[f].state == HOLD)
    case RunFiber(f, task) =>
      f < |fibers| && fibers[f].owner == Some(t) && fibers[f].state == EXEC && task.fiber == Some(f)
    case RunCb(g, task, todo) =>
      && g < |fibers| && th.cbFiber == Some(g) && fibers[g].state == EXEC
      && (!todo.UserCode? ==> !fibers[g].armed && fibers[g].call.None?)
      && (todo.Execute? ==> task.cb == Some(todo.c))
      && (todo.Revoke? ==> task.cb == Some(Timeout(todo.call)))
    case RunIdle(_) => true
  }

  ghost predicate IdleOk(th: Thread) {
    && (th.idle == INIT || th.idle == HOLD || th.idle == EXEC || th.idle == TERM)
    && (th.idle == EXEC <==> th.held.RunIdle?)
  }

  ghost predicate ThreadOk(fibers: seq<Fiber>, th: Thread, t: nat) {
    CbFiberOk(fibers, th, t) && HeldOk(fibers, th, t) && IdleOk(th)
  }

  ghost predicate FiberOk(fb: Fiber, f: nat, threads: seq<Thread>) {
    && fb.state != READY
    && (fb.armed ==> fb.state == EXEC)
    && (fb.state == EXEC ==> fb.owner.Some?)
    && (fb.owner.Some? ==> fb.owner.value < |threads| && Has(threads[fb.owner.value], f))
  }

  ghost predicate Own(fibers: seq<Fiber>, threads: seq<Thread>) {
    && (forall t :: 0 <= t < |threads| ==> ThreadOk(fibers, threads[t], t))
    && (forall f :: 0 <= f < |fibers| ==> FiberOk(fibers[f], f, threads))
  }

  // ----------------------------------------------------------- calls and their timers

  /** The deadline of a call. */
  function Deadline(c: Call): nat
    requires c.timeout.Some?
  {
    c.entry + c.timeout.value
  }

  ghost predicate CallOk(c: Call, k: nat, clock: nat) {
    && c.entry <= clock
    && (c.expired ==> c.timeout.Some? && Deadline(c) <= clock)
    && (c.cancelled ==> c.expired)
    && (c.timedOut ==> c.cancelled)
    && (c.timer.Some? ==> c.timer.value.cb == Timeout(k))
  }

  ghost predicate CallsOk(calls: seq<Call>, clock: nat) {
    forall k :: 0 <= k < |calls| ==> CallOk(calls[k], k, clock)
  }

  /** A deadline check that has left the timer set: its call had a timer handed out. */
  ghost predicate ClosureOk(c: Closure, calls: seq<Call>) {
    c.Timeout? ==> c.call < |calls| && calls[c.call].expired
  }

  ghost predicate TaskOk(t: Task, calls: seq<Call>) {
    && t.fiber.Some? != t.cb.Some?
    && (t.cb.Some? ==> ClosureOk(t.cb.value, calls))
  }

  ghost predicate QueueOk(queue: seq<Task>, calls: seq<Call>) {
    forall i :: 0 <= i < |queue| ==> TaskOk(queue[i], calls)
  }

  /** What a thread holds is a proper task, pinned nowhere else; and idle carries proper callbacks. */
  ghost predicate InHand(th: Thread, t: nat, calls: seq<Call>) {
    && (HeldTask(th).Some? ==>
          var task := HeldTask(th).value;
          TaskOk(task, calls) && (task.thread.None? || task.thread == Some(t)))
    && (th.held.RunIdle? ==> CallbacksOk(th.held.cbs, calls))
  }

  ghost predicate CallbacksOk(cbs: seq<Closure>, calls: seq<Call>) {
    forall i :: 0 <= i < |cbs| ==> ClosureOk(cbs[i], calls)
  }

  ghost predicate HandsOk(threads: seq<Thread>, calls: seq<Call>) {
    forall t :: 0 <= t < |threads| ==> InHand(threads[t], t, calls)
  }

  /** Event slots hold fibers and user callbacks only. */
  ghost predicate SlotsPlain(ctxs: seq<Ctx>) {
    forall fd :: 0 <= fd < |ctxs| ==>
      (ctxs[fd].read.cb.Some? ==> ctxs[fd].read.cb.value.User?) && (ctxs[fd].write.cb.Some? ==> ctxs[fd].write.cb.value.User?)
  }

  ghost predicate TimerOk(r: Rec<Closure>, calls: seq<Call>, addrs: set<nat>) {
    && r.addr in addrs
    && (r.recurring ==> r.cb.User?)
    && (r.cb.Timeout? ==>
          && r.cb.call < |calls| && calls[r.cb.call].timeout.Some?
          && Deadline(calls[r.cb.call]) <= r.next)
  }

  ghost predicate TimersOk(timers: seq<Rec<Closure>>, calls: seq<Call>, addrs: set<nat>) {
    && Sorted(timers) && Distinct(timers)
    && (forall i :: 0 <= i < |timers| ==> TimerOk(timers[i], calls, addrs))
  }

  /** A call's timer handle denotes at most its own timer in the set. */
  ghost predicate HandlesOk(timers: seq<Rec<Closure>>, calls: seq<Call>, addrs: set<nat>) {
    forall k :: 0 <= k < |calls| && calls[k].timer.Some? ==>
      && calls[k].timer.value.addr in addrs
      && (forall i :: 0 <= i < |timers| && timers[i].addr == calls[k].timer.value.addr ==> timers[i] == calls[k].timer.value)
  }

  // --------------------------------------------------------------------- conservation

  function HeldTask(th: Thread): Option<Task> {
    match th.held
    case Picked(task) => Some(task)
    case RunFiber(_, task) => Some(task)
    case RunCb(_, task, _) => Some(task)
    case _ => None
  }

  function HeldWeight(th: Thread, w: Task -> nat): nat {
    if HeldTask(th).Some? then w(HeldTask(th).value) else 0
  }

  /** Weight of the task a thread holds. */
  function HeldW(w: Task -> nat): Thread -> nat {
    (th: Thread) => HeldWeight(th, w)
  }

  /** Every task scheduled is queued, held by a thread, or finished. */
  ghost predicate Conserved(s: State, w: Task -> nat) {
    Total(s.scheduled, w) == Total(s.queue, w) + Total(s.threads, HeldW(w)) + Total(s.finished, w)
  }

  function One(): Task -> nat {
    (t: Task) => 1
  }

  ghost predicate ActiveOk(s: State) {
    s.active == Total(s.threads, HeldW(One()))
  }

  ghost predicate Shape(s: State) {
    && Own(s.fibers, s.threads)
    && Inv(s.poll) && SlotsPlain(s.poll.ctxs)
    && QueueOk(s.queue, s.calls) && HandsOk(s.threads, s.calls)
    && CallsOk(s.calls, s.clock)
    && TimersOk(s.timers, s.calls, s.addrs) && HandlesOk(s.timers, s.calls, s.addrs)
  }

  ghost predicate RuntimeOk(s: State) {
    Shape(s) && Linear(s) && ActiveOk(s)
  }
}
