/** The event poller as values: per-descriptor contexts, the kernel's epoll
    table, and one function per operation of EventPoller. The class in
    EventPoller.dfy is proved to compute these functions; the lemmas here say
    what they guarantee. */
module Poller {
  import opened Prelude
  import opened Tasks

  datatype Event = READ | WRITE

  /** A set of events: the READ and the WRITE bit. */
  datatype Mask = Mask(read: bool, write: bool) {
    predicate Has(ev: Event) { if ev == READ then read else write }
    function With(ev: Event): Mask { if ev == READ then this.(read := true) else this.(write := true) }
    function Without(ev: Event): Mask { if ev == READ then this.(read := false) else this.(write := false) }
    function Or(m: Mask): Mask { Mask(read || m.read, write || m.write) }
    function And(m: Mask): Mask { Mask(read && m.read, write && m.write) }
    function Minus(m: Mask): Mask { Mask(read && !m.read, write && !m.write) }
    function Size(): nat { (if read then 1 else 0) + (if write then 1 else 0) }
  }

  const NONE := Mask(false, false)

  datatype Slot = Slot(scheduler: bool, fiber: Option<nat>, cb: Option<Closure>)

  const EMPTY := Slot(false, None, None)

  datatype Ctx = Ctx(events: Mask, read: Slot, write: Slot) {
    function Get(ev: Event): Slot {
      if ev == READ then read else write
    }

    function Set(ev: Event, s: Slot): Ctx {
      if ev == READ then this.(read := s) else this.(write := s)
    }
  }

  const EMPTY_CTX := Ctx(NONE, EMPTY, EMPTY)

  datatype PollState = PollState(ctxs: seq<Ctx>, kernel: map<nat, Mask>, pending: int)

  datatype CtlOp = ADD | MOD | DEL

  /** epoll_ctl accepts ADD only for an unregistered descriptor, MOD and DEL only for a registered one. */
  predicate Legal(kernel: map<nat, Mask>, op: CtlOp, fd: nat) {
    (op == ADD) == (fd !in kernel)
  }

  function Control(kernel: map<nat, Mask>, op: CtlOp, fd: nat, mask: Mask): map<nat, Mask> {
    if op == DEL then kernel - {fd} else kernel[fd := mask]
  }

  /** Either an Assert of the source fails at the given line of eventpoller.cpp, or the
      operation completes, reports success or failure, and schedules some tasks. */
  datatype Outcome = Abort(line: nat) | Done(poller: PollState, ok: bool, tasks: seq<Task>)

  /** What triggerEvent hands to the scheduler: the callback if there is one, else the fiber. */
  function Taken(s: Slot): Task {
    if s.cb.Some? then Task(None, s.cb, None) else Task(s.fiber, None, None)
  }

  /** triggerEvent: clear the bit, swap the work out of the slot, forget the scheduler. */
  function Trigger(c: Ctx, ev: Event): Ctx {
    var s := c.Get(ev);
    c.(events := c.events.Without(ev))
    .Set(ev, if s.cb.Some? then Slot(false, s.fiber, None) else Slot(false, None, s.cb))
  }

  function Resize(ctxs: seq<Ctx>, size: nat): seq<Ctx> {
    if size <= |ctxs| then ctxs else ctxs + seq(size - |ctxs|, _ => EMPTY_CTX)
  }

  /** The context vector after addEvent made room for `fd`. */
  function Grown(ctxs: seq<Ctx>, fd: nat): seq<Ctx> {
    if |ctxs| > fd then ctxs else Resize(ctxs, fd * 3 / 2)
  }

  /** addEvent: `work` is the callback given, or the calling fiber. `fails` is what epoll_ctl chose. */
  function AddEvent(p: PollState, fd: nat, ev: Event, self: nat, cb: Option<Closure>, fails: bool): Outcome
    requires fd < |Grown(p.ctxs, fd)|
  {
    var ctxs := Grown(p.ctxs, fd);
    var c := ctxs[fd];
    if c.events.Has(ev) then Abort(137)
    else
      var op := if c.events != NONE then MOD else ADD;
      if fails || !Legal(p.kernel, op, fd) then Done(p.(ctxs := ctxs), false, [])
      else if c.Get(ev) != EMPTY then Abort(157)
      else
        var slot := if cb.Some? then Slot(true, None, cb) else Slot(true, Some(self), None);
        var c' := c.(events := c.events.With(ev)).Set(ev, slot);
        Done(PollState(ctxs[fd := c'], Control(p.kernel, op, fd, c.events.With(ev)), p.pending + 1), true, [])
  }

  function DelEvent(p: PollState, fd: nat, ev: Event, fails: bool): Outcome {
    if |p.ctxs| <= fd || !p.ctxs[fd].events.Has(ev) then Done(p, false, [])
    else
      var c := p.ctxs[fd];
      var left := c.events.Without(ev);
      var op := if left != NONE then MOD else DEL;
      if fails || !Legal(p.kernel, op, fd) then Done(p, false, [])
      else
        Done(PollState(p.ctxs[fd := c.(events := left).Set(ev, EMPTY)], Control(p.kernel, op, fd, left), p.pending - 1),
             true, [])
  }

  function CancelEvent(p: PollState, fd: nat, ev: Event, fails: bool): Outcome {
    if |p.ctxs| <= fd || !p.ctxs[fd].events.Has(ev) then Done(p, false, [])
    else
      var c := p.ctxs[fd];
      var left := c.events.Without(ev);
      var op := if left != NONE then MOD else DEL;
      if fails || !Legal(p.kernel, op, fd) then Done(p, false, [])
      else
        Done(PollState(p.ctxs[fd := Trigger(c, ev)], Control(p.kernel, op, fd, left), p.pending - 1),
             true, Enqueue([], Taken(c.Get(ev))))
  }

  /** Trigger READ and then WRITE, each if it is in `which`. */
  function TriggerAll(c: Ctx, which: Mask): (Ctx, seq<Task>) {
    var (c1, q1) := if which.read then (Trigger(c, READ), Enqueue([], Taken(c.read))) else (c, []);
    if which.write then (Trigger(c1, WRITE), Enqueue(q1, Taken(c1.write))) else (c1, q1)
  }

  function CancelAll(p: PollState, fd: nat, fails: bool): Outcome {
    if |p.ctxs| <= fd || p.ctxs[fd].events == NONE then Done(p, false, [])
    else if fails || !Legal(p.kernel, DEL, fd) then Done(p, false, [])
    else
      var c := p.ctxs[fd];
      var (c', tasks) := TriggerAll(c, c.events);
      if c'.events != NONE then Abort(276)
      else Done(PollState(p.ctxs[fd := c'], Control(p.kernel, DEL, fd, NONE), p.pending - c.events.Size()), true, tasks)
  }

  /** The bits idle acts on for one report. */
  function Hit(c: Ctx, reported: Mask, hangup: bool): Mask {
    if hangup then reported.Or(c.events) else reported
  }

  /** One descriptor reported by epoll_wait: `reported` holds its EPOLLIN/EPOLLOUT bits,
      `hangup` says EPOLLERR or EPOLLHUP was set. */
  function Ready(p: PollState, fd: nat, reported: Mask, hangup: bool, fails: bool): Outcome
    requires fd < |p.ctxs|
  {
    var c := p.ctxs[fd];
    var hit := Hit(c, reported, hangup);
    if c.events.And(hit) == NONE then Done(p, false, [])
    else
      var left := c.events.Minus(hit);
      var op := if left != NONE then MOD else DEL;
      if fails || !Legal(p.kernel, op, fd) then Done(p, false, [])
      else if hit.Minus(c.events) != NONE then Abort(88)
      else
        var (c', tasks) := TriggerAll(c, hit);
        Done(PollState(p.ctxs[fd := c'], Control(p.kernel, op, fd, left), p.pending - hit.Size()), true, tasks)
  }

  /** What epoll_wait puts into idle's array: the tickle pipe, or a descriptor. `fails` is the fate of the epoll_ctl
      call that idle will make for it. */
  datatype Report = Tickled | OnFd(fd: nat, reported: Mask, hangup: bool, fails: bool)

  /** idle's pass over the array; it ends early where an assertion fails. */
  function ReadyAll(p: PollState, rs: seq<Report>): (o: Outcome)
    ensures o.Done? ==> o.ok && |o.poller.ctxs| == |p.ctxs|
    decreases |rs|
  {
    if rs == [] then Done(p, true, [])
    else if rs[0].Tickled? || rs[0].fd >= |p.ctxs| then ReadyAll(p, rs[1..])
    else
      match Ready(p, rs[0].fd, rs[0].reported, rs[0].hangup, rs[0].fails)
      case Abort(line) => Abort(line)
      case Done(p1, _, tasks) =>
        match ReadyAll(p1, rs[1..])
        case Abort(line) => Abort(line)
        case Done(p2, _, more) => Done(p2, true, tasks + more)
  }

  /** The kernel drops a closed descriptor from its table on its own. */
  function Closed(p: PollState, fd: nat): PollState {
    p.(kernel := p.kernel - {fd})
  }

  // ---------------------------------------------------------------- invariants

  /** The kernel watches exactly what the contexts say. */
  ghost predicate Mirror(p: PollState) {
    && (forall fd :: fd in p.kernel ==> fd < |p.ctxs| && p.ctxs[fd].events != NONE && p.kernel[fd] == p.ctxs[fd].events)
    && (forall fd :: 0 <= fd < |p.ctxs| && p.ctxs[fd].events != NONE ==> fd in p.kernel)
  }

  /** A bit is set iff its slot holds a scheduler and exactly one of callback and fiber; else all three are null. */
  ghost predicate SlotOk(c: Ctx, ev: Event) {
    var s := c.Get(ev);
    if c.events.Has(ev) then s.scheduler && (s.fiber.Some? != s.cb.Some?) else s == EMPTY
  }

  ghost predicate CtxOk(c: Ctx) {
    SlotOk(c, READ) && SlotOk(c, WRITE)
  }

  /** The sum over all descriptors of the bits set. */
  function BitCount(ctxs: seq<Ctx>): nat {
    if ctxs == [] then 0 else ctxs[0].events.Size() + BitCount(ctxs[1..])
  }

  ghost predicate Inv(p: PollState) {
    && |p.ctxs| >= 32
    && (forall fd :: 0 <= fd < |p.ctxs| ==> CtxOk(p.ctxs[fd]))
    && Mirror(p)
    && p.pending == BitCount(p.ctxs)
  }

  const INITIAL := PollState(seq(32, _ => EMPTY_CTX), map[], 0)
}
