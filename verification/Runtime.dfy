/** The runtime as one transition system: N threads in Scheduler::run, the fibers they
    switch to, the event poller, the timer set, and the hooked calls that park fibers.
    Each critical section of the source is one step; the stretch from a fiber's
    yield or end to the matching bookkeeping in run is one step as well. */
module Runtime {
  import opened Prelude
  import opened Tasks
  import opened Poller
  import opened Timers

  datatype FState = INIT | HOLD | EXEC | TERM | READY | EXCEPT

  /** `armed`: the fiber has left a wake-up somewhere and is about to yield. `call`: the hooked call it is in.
      `owner`: the thread that picked it, runs it or keeps it for reuse. */
  datatype Fiber = Fiber(state: FState, armed: bool, call: Option<nat>, owner: Option<nat>)

  /** What a callback fiber still has to do for the runtime before it is user code: execute a system closure, or,
      halfway through a deadline check that has set its call's flag, cancel that call's event. */
  datatype Todo = UserCode | Execute(c: Closure) | Revoke(call: nat)

  /** What a thread has in hand. RunIdle carries idle's local vector of callbacks taken out of the timer set. */
  datatype Held =
    | Nothing
    | Picked(task: Task)
    | RunFiber(fiber: nat, task: Task)
    | RunCb(fiber: nat, task: Task, todo: Todo)
    | RunIdle(cbs: seq<Closure>)

  /** `cbFiber` and `idle` are run()'s locals cb_fiber and the state of idle_fiber. */
  datatype Thread = Thread(held: Held, cbFiber: Option<nat>, idle: FState, running: bool)

  datatype Kind = Io | Connect

  /** Where a hooked call stands: about to make the system call, timer set, registered or woken. */
  datatype Stage = Try | Timed | Waiting

  /** One execution of do_io or connect_with_timeout by `fiber`. `cancelled` is timer_info::cancelled, `live` whether that
      object still exists; `expired` records that a timer of this call was handed out, `timedOut` that the
      call returned ETIMEDOUT. */
  datatype Call = Call(fiber: nat, kind: Kind, fd: nat, ev: Event, timeout: Option<nat>, entry: nat, stage: Stage,
                       timer: Option<Rec<Closure>>, cancelled: bool, live: bool, expired: bool, timedOut: bool)

  /** `scheduled` and `finished` are history: every task that entered the queue, every task that left a thread. */
  datatype State = State(queue: seq<Task>, fibers: seq<Fiber>, threads: seq<Thread>, active: int,
                         poll: PollState, timers: seq<Rec<Closure>>, addrs: set<nat>, calls: seq<Call>, clock: nat,
                         scheduled: seq<Task>, finished: seq<Task>)

  /** The assertions of the source, by file and line. */
  datatype Site = FiberLine(n: nat) | SchedulerLine(n: nat) | PollerLine(n: nat)

  datatype Result = Failed(site: Site) | Ok(state: State)

  datatype Op =
    | Tick(ms: nat)
    | Spawn(id: nat, thread: Option<nat>)
    | SpawnFiber(thread: Option<nat>)
    | Pick(t: nat)
    | Enter(t: nat)
    | Yield(t: nat)
    | Finish(t: nat, threw: bool)
    | RunClosure(t: nat)
    | RevokeEvent(t: nat, fails: bool)
    | IdleReport(t: nat, fd: nat, reported: Mask, hangup: bool, fails: bool)
    | IdleExpire(t: nat, probe: nat)
    | IdleSchedule(t: nat)
    | IdleYield(t: nat)
    | IdleFinish(t: nat)
    | IoBegin(t: nat, kind: Kind, fd: nat, ev: Event, timeout: Option<nat>)
    | IoTimer(t: nat, addr: nat)
    | IoRegister(t: nat, fails: bool)
    | IoResume(t: nat)
    | IoReturn(t: nat)
    | Sleep(t: nat, ms: nat, addr: nat)
    | AddCallback(fd: nat, ev: Event, id: nat, fails: bool)
    | AddTimer(addr: nat, ms: nat, id: nat, recurring: bool)
    | Cancel(fd: nat, ev: Event, fails: bool)
    | CancelEach(fd: nat, fails: bool)

  // ------------------------------------------------------------------- the queue

  /** schedule(): append and record. */
  function Push(s: State, t: Task): State {
    if t.NonEmpty() then s.(queue := s.queue + [t], scheduled := s.scheduled + [t]) else s
  }

  /** The same for tasks that are known to be non-empty. */
  function PushAll(s: State, ts: seq<Task>): State {
    s.(queue := s.queue + ts, scheduled := s.scheduled + ts)
  }

  /** The entries run() may take on thread `t`: not pinned elsewhere, and not a fiber that is still executing. */
  predicate Eligible(fibers: seq<Fiber>, t: nat, task: Task) {
    && (task.thread.None? || task.thread == Some(t))
    && (task.fiber.Some? && task.fiber.value < |fibers| ==> fibers[task.fiber.value].state != EXEC)
  }

  /** The pick loop: the first eligible entry, or the end of the queue. */
  function FirstEligible(queue: seq<Task>, fibers: seq<Fiber>, t: nat): (i: nat)
    ensures i <= |queue|
    ensures forall k :: 0 <= k < i ==> !Eligible(fibers, t, queue[k])
    ensures i < |queue| ==> Eligible(fibers, t, queue[i])
  {
    if queue == [] || Eligible(fibers, t, queue[0]) then 0
    else
      var i := FirstEligible(queue[1..], fibers, t);
      assert forall k :: 0 < k < i + 1 ==> queue[k] == queue[1..][k - 1];
      i + 1
  }

  // ------------------------------------------------------------------ thread steps

  function SetThread(s: State, t: nat, th: Thread): State
    requires t < |s.threads|
  {
    s.(threads := s.threads[t := th])
  }

  function SetFiber(s: State, f: nat, fb: Fiber): State
    requires f < |s.fibers|
  {
    s.(fibers := s.fibers[f := fb])
  }

  /** The user code running on a thread, if any: a fiber task, or a callback with nothing left to do for the runtime. */
  function Current(th: Thread): Option<nat> {
    match th.held
    case RunFiber(f, _) => Some(f)
    case RunCb(g, _, UserCode) => Some(g)
    case _ => None
  }

  predicate Runs(s: State, t: nat) {
    t < |s.threads| && Current(s.threads[t]).Some? && Current(s.threads[t]).value < |s.fibers|
  }

  /** The fiber running on `t`. */
  function Running(s: State, t: nat): nat
    requires Runs(s, t)
  {
    Current(s.threads[t]).value
  }

  /** User code outside every hook. */
  predicate Free(s: State, t: nat) {
    Runs(s, t) && !s.fibers[Running(s, t)].armed && s.fibers[Running(s, t)].call.None?
  }

  /** Inside a hooked call, at the given stage, not about to yield. */
  predicate InCall(s: State, t: nat, stage: Stage) {
    && Runs(s, t)
    && var fb := s.fibers[Running(s, t)];
      !fb.armed && fb.call.Some? && fb.call.value < |s.calls| && s.calls[fb.call.value].stage == stage
  }

  function DoPick(s: State, t: nat): Result
    requires t < |s.threads|
  {
    var th := s.threads[t];
    var i := FirstEligible(s.queue, s.fibers, t);
    if i < |s.queue| then
      var task := s.queue[i];
      if !task.NonEmpty() then Failed(SchedulerLine(216))
      else
        var s1 := s.(queue := s.queue[..i] + s.queue[i + 1..], active := s.active + 1,
                     threads := s.threads[t := th.(held := Picked(task))]);
        if task.fiber.Some? && task.fiber.value < |s.fibers| then
          Ok(SetFiber(s1, task.fiber.value, s.fibers[task.fiber.value].(owner := Some(t))))
        else Ok(s1)
    else if th.idle == TERM then Ok(SetThread(s, t, th.(running := false)))
    else if th.idle == EXEC then Failed(FiberLine(159))
    else Ok(SetThread(s, t, th.(held := RunIdle([]), idle := EXEC)))
  }

  /** The system closures run by the runtime itself; user closures are user code. */
  function FirstTodo(c: Closure): Todo {
    if c.User? then UserCode else Execute(c)
  }

  function DoEnter(s: State, t: nat): Result
    requires t < |s.threads| && s.threads[t].held.Picked?
  {
    var th := s.threads[t];
    var task := th.held.task;
    if task.fiber.Some? && task.fiber.value < |s.fibers|
       && s.fibers[task.fiber.value].state != TERM && s.fibers[task.fiber.value].state != EXCEPT then
      var f := task.fiber.value;
      if s.fibers[f].state == EXEC then Failed(FiberLine(159))
      else
        Ok(SetThread(SetFiber(s, f, s.fibers[f].(state := EXEC)), t, th.(held := RunFiber(f, task))))
    else if task.cb.Some? then
      if th.cbFiber.Some? && th.cbFiber.value < |s.fibers| then
        var g := th.cbFiber.value;
        var st := s.fibers[g].state;
        if !(st == INIT || st == TERM || st == EXCEPT) then Failed(FiberLine(101))
        else
          Ok(SetThread(SetFiber(s, g, s.fibers[g].(state := EXEC)), t,
                       th.(held := RunCb(g, task, FirstTodo(task.cb.value)))))
      else
        var g := |s.fibers|;
        Ok(SetThread(s.(fibers := s.fibers + [Fiber(EXEC, false, None, Some(t))]), t,
                     th.(held := RunCb(g, task, FirstTodo(task.cb.value)), cbFiber := Some(g))))
    else
      Ok(SetThread(s, t, th.(held := Nothing)).(active := s.active - 1, finished := s.finished + [task]))
  }

  /** yieldToHold, swapOut, and run()'s bookkeeping for a fiber that did not end. */
  function DoYield(s: State, t: nat): Result
    requires Runs(s, t)
  {
    var th := s.threads[t];
    var f := Running(s, t);
    if s.fibers[f].state != EXEC then Failed(FiberLine(195))
    else
      var th' := th.(held := Nothing, cbFiber := if th.held.RunCb? then None else th.cbFiber);
      Ok(SetThread(SetFiber(s, f, s.fibers[f].(state := HOLD, armed := false, owner := None)), t, th')
         .(active := s.active - 1, finished := s.finished + [th.held.task]))
  }

  /** MainFunc's end, and run()'s bookkeeping: a callback fiber is reset for reuse, a fiber task is done. */
  function DoFinish(s: State, t: nat, threw: bool): Result
    requires t < |s.threads| && (s.threads[t].held.RunFiber? || s.threads[t].held.RunCb?)
    requires s.threads[t].held.fiber < |s.fibers|
  {
    var th := s.threads[t];
    var f := th.held.fiber;
    var ended := s.fibers[f].(state := if threw then EXCEPT else TERM);
    var after := if th.held.RunCb? then ended.(state := INIT) else ended.(owner := None);
    Ok(SetThread(SetFiber(s, f, after), t, th.(held := Nothing))
       .(active := s.active - 1, finished := s.finished + [th.held.task]))
  }

  /** Install an event-poller outcome and schedule what it triggered. */
  function Install(s: State, o: Outcome): Result {
    match o
    case Abort(line) => Failed(PollerLine(line))
    case Done(p, _, tasks) => Ok(PushAll(s.(poll := p), tasks))
  }

  /** A callback fiber executes a sleep timer's wake-up, or the first half of a call's deadline check: set the flag. */
  function DoClosure(s: State, t: nat): State
    requires t < |s.threads| && s.threads[t].held.RunCb? && s.threads[t].held.todo.Execute?
  {
    var th := s.threads[t];
    var s1 := SetThread(s, t, th.(held := th.held.(todo := UserCode)));
    match th.held.todo.c
    case User(_) => s1
    case Wake(f) => Push(s1, Task(Some(f), None, None))
    case Timeout(k) =>
      if k >= |s.calls| || !s.calls[k].live || s.calls[k].cancelled then s1
      else
        SetThread(SetCall(s, k, s.calls[k].(cancelled := true)), t, th.(held := th.held.(todo := Revoke(k))))
  }

  /** The second half of a deadline check: cancel the event the call may be registered for. */
  function DoRevoke(s: State, t: nat, fails: bool): Result
    requires t < |s.threads| && s.threads[t].held.RunCb? && s.threads[t].held.todo.Revoke?
  {
    var th := s.threads[t];
    var k := th.held.todo.call;
    var s1 := SetThread(s, t, th.(held := th.held.(todo := UserCode)));
    if k >= |s.calls| then Ok(s1) else Install(s1, CancelEvent(s.poll, s.calls[k].fd, s.calls[k].ev, fails))
  }

  // -------------------------------------------------------------------- idle steps

  /** The callbacks of due timers, in set order. */
  function Callbacks(due: seq<Rec<Closure>>): seq<Closure> {
    if due == [] then [] else [due[0].cb] + Callbacks(due[1..])
  }

  /** The same as tasks. */
  function CbTasks(cbs: seq<Closure>): seq<Task> {
    if cbs == [] then [] else [Task(None, Some(cbs[0]), None)] + CbTasks(cbs[1..])
  }

  /** History: these timers' calls have had a timer handed out. */
  function MarkExpired(calls: seq<Call>, due: seq<Rec<Closure>>): (r: seq<Call>)
    ensures |r| == |calls|
    decreases |due|
  {
    if due == [] then calls
    else
      var c := due[0].cb;
      MarkExpired(if c.Timeout? && c.call < |calls| then calls[c.call := calls[c.call].(expired := true)] else calls,
                  due[1..])
  }

  /** listExpiredCb: the due timers' callbacks are in idle's hands now. */
  function DoExpire(s: State, t: nat, probe: nat): State
    requires t < |s.threads|
  {
    var due := s.timers[..Cut(s.timers, s.clock, probe)];
    SetThread(s.(timers := Expire(s.timers, s.clock, probe), calls := MarkExpired(s.calls, due)), t,
              s.threads[t].(held := RunIdle(Callbacks(due))))
  }

  /** schedule(cbs.begin(), cbs.end()). */
  function DoSchedule(s: State, t: nat): State
    requires t < |s.threads| && s.threads[t].held.RunIdle?
  {
    SetThread(PushAll(s, CbTasks(s.threads[t].held.cbs)), t, s.threads[t].(held := RunIdle([])))
  }

  // ------------------------------------------------------------------- hooked calls

  function SetCall(s: State, k: nat, c: Call): State
    requires k < |s.calls|
  {
    s.(calls := s.calls[k := c])
  }

  function Leave(s: State, f: nat, k: nat, c: Call): State
    requires f < |s.fibers| && k < |s.calls|
  {
    SetFiber(SetCall(s, k, c.(live := false)), f, s.fibers[f].(call := None))
  }

  /** timer->cancel(), if the call has set a timer. */
  function StopTimer(timers: seq<Rec<Closure>>, timer: Option<Rec<Closure>>): seq<Rec<Closure>> {
    if timer.Some? then Erase(timers, timer.value.next, timer.value.addr) else timers
  }

  /** addConditionTimer, when the call has a time limit. */
  function DoIoTimer(s: State, k: nat, addr: nat): State
    requires k < |s.calls|
  {
    var c := s.calls[k];
    if c.timeout.None? then SetCall(s, k, c.(stage := Timed, timer := None))
    else
      var r := Rec(addr, c.timeout.value, s.clock + c.timeout.value, Timeout(k), false);
      SetCall(s, k, c.(stage := Timed, timer := Some(r))).(timers := Insert(s.timers, r), addrs := s.addrs + {addr})
  }

  /** addEvent for the running fiber: on success it is armed, on failure the call ends. */
  function DoIoRegister(s: State, f: nat, k: nat, fails: bool): Result
    requires f < |s.fibers| && k < |s.calls| && s.calls[k].fd < |Grown(s.poll.ctxs, s.calls[k].fd)|
  {
    var c := s.calls[k];
    match AddEvent(s.poll, c.fd, c.ev, f, None, fails)
    case Abort(line) => Failed(PollerLine(line))
    case Done(p, ok, _) =>
      if ok then Ok(SetFiber(SetCall(s.(poll := p), k, c.(stage := Waiting)), f, s.fibers[f].(armed := true)))
      else Ok(Leave(s.(poll := p, timers := StopTimer(s.timers, c.timer)), f, k, c))
  }

  /** Back from yieldToHold: stop the timer; report ETIMEDOUT if cancelled, else retry (connect: finish). */
  function DoIoResume(s: State, f: nat, k: nat): State
    requires f < |s.fibers| && k < |s.calls|
  {
    var c := s.calls[k];
    var s1 := s.(timers := StopTimer(s.timers, c.timer));
    if c.cancelled then Leave(s1, f, k, c.(timedOut := true))
    else if c.kind == Io then SetCall(s1, k, c.(stage := Try))
    else Leave(s1, f, k, c)
  }

  function DoSleep(s: State, f: nat, ms: nat, addr: nat): State
    requires f < |s.fibers|
  {
    var r := Rec(addr, ms, s.clock + ms, Wake(f), false);
    SetFiber(s.(timers := Insert(s.timers, r), addrs := s.addrs + {addr}), f, s.fibers[f].(armed := true))
  }

  // ------------------------------------------------------------------------ steps

  /** When control is at the point where the step can happen. */
  predicate Enabled(s: State, op: Op) {
    match op
    case Pick(t) => t < |s.threads| && s.threads[t].running && s.threads[t].held.Nothing?
    case Enter(t) => t < |s.threads| && s.threads[t].held.Picked?
    case Yield(t) => Runs(s, t) && s.fibers[Running(s, t)].armed
    case Finish(t, _) => Free(s, t)
    case RunClosure(t) => t < |s.threads| && s.threads[t].held.RunCb? && s.threads[t].held.todo.Execute?
    case RevokeEvent(t, _) => t < |s.threads| && s.threads[t].held.RunCb? && s.threads[t].held.todo.Revoke?
    case IdleReport(t, fd, _, _, _) => t < |s.threads| && s.threads[t].held == RunIdle([]) && fd < |s.poll.ctxs|
    case IdleExpire(t, _) => t < |s.threads| && s.threads[t].held == RunIdle([])
    case IdleSchedule(t) => t < |s.threads| && s.threads[t].held.RunIdle? && s.threads[t].held.cbs != []
    case IdleYield(t) => t < |s.threads| && s.threads[t].held == RunIdle([])
    case IdleFinish(t) => t < |s.threads| && s.threads[t].held == RunIdle([])
    case IoBegin(t, _, _, _, _) => Free(s, t)
    case IoTimer(t, addr) => InCall(s, t, Try) && addr !in s.addrs
    case IoRegister(t, _) => InCall(s, t, Timed) && |s.poll.ctxs| >= 32
    case IoResume(t) => InCall(s, t, Waiting)
    case IoReturn(t) => InCall(s, t, Try)
    case Sleep(t, _, addr) => Free(s, t) && addr !in s.addrs
    case AddCallback(_, _, _, _) => |s.poll.ctxs| >= 32
    case AddTimer(addr, _, _, _) => addr !in s.addrs
    case _ => true
  }

  function Step(s: State, op: Op): Result
    requires Enabled(s, op)
  {
    match op
    case Tick(ms) => Ok(s.(clock := s.clock + ms))
    case Spawn(id, thread) => Ok(Push(s, Task(None, Some(User(id)), thread)))
    case SpawnFiber(thread) =>
      Ok(Push(s.(fibers := s.fibers + [Fiber(INIT, false, None, None)]), Task(Some(|s.fibers|), None, thread)))
    case Pick(t) => DoPick(s, t)
    case Enter(t) => DoEnter(s, t)
    case Yield(t) => DoYield(s, t)
    case Finish(t, threw) => DoFinish(s, t, threw)
    case RunClosure(t) => Ok(DoClosure(s, t))
    case RevokeEvent(t, fails) => DoRevoke(s, t, fails)
    case IdleReport(t, fd, reported, hangup, fails) => Install(s, Ready(s.poll, fd, reported, hangup, fails))
    case IdleExpire(t, probe) => Ok(DoExpire(s, t, probe))
    case IdleSchedule(t) => Ok(DoSchedule(s, t))
    case IdleYield(t) => Ok(SetThread(s, t, s.threads[t].(held := Nothing, idle := HOLD)))
    case IdleFinish(t) => Ok(SetThread(s, t, s.threads[t].(held := Nothing, idle := TERM)))
    case IoBegin(t, kind, fd, ev, timeout) =>
      var f := Running(s, t);
      Ok(SetFiber(s.(calls := s.calls + [Call(f, kind, fd, ev, timeout, s.clock, Try, None, false, true, false, false)]),
                  f, s.fibers[f].(call := Some(|s.calls|))))
    case IoTimer(t, addr) => Ok(DoIoTimer(s, s.fibers[Running(s, t)].call.value, addr))
    case IoRegister(t, fails) => DoIoRegister(s, Running(s, t), s.fibers[Running(s, t)].call.value, fails)
    case IoResume(t) => Ok(DoIoResume(s, Running(s, t), s.fibers[Running(s, t)].call.value))
    case IoReturn(t) =>
      var k := s.fibers[Running(s, t)].call.value;
      Ok(Leave(s, Running(s, t), k, s.calls[k]))
    case Sleep(t, ms, addr) => Ok(DoSleep(s, Running(s, t), ms, addr))
    case AddCallback(fd, ev, id, fails) => Install(s, AddEvent(s.poll, fd, ev, 0, Some(User(id)), fails))
    case AddTimer(addr, ms, id, recurring) =>
      Ok(s.(timers := Insert(s.timers, Rec(addr, ms, s.clock + ms, User(id), recurring)), addrs := s.addrs + {addr}))
    case Cancel(fd, ev, fails) => Install(s, CancelEvent(s.poll, fd, ev, fails))
    case CancelEach(fd, fails) => Install(s, CancelAll(s.poll, fd, fails))
  }

  /** `n` threads at the top of run(), nothing scheduled. */
  function Start(n: nat): State {
    State([], [], seq(n, _ => Thread(Nothing, None, INIT, true)), 0, INITIAL, [], {}, [], 0, [], [])
  }

  ghost predicate Reaches(s: State, ops: seq<Op>, s': State)
    decreases |ops|
  {
    if ops == [] then s' == s
    else Enabled(s, ops[0]) && Step(s, ops[0]).Ok? && Reaches(Step(s, ops[0]).state, ops[1..], s')
  }
}
