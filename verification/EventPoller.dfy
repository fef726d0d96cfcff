/** The event poller as the program keeps it: a vector of mutable FdContext objects,
    a pending-event counter and the scheduler queue. Every operation is
    proved to compute the function of module Poller that stands for it. */
module EventPolling {
  import opened Prelude
  import opened Tasks
  import opened P = Poller
  import opened PollerLaws

  class FdContext {
    const fd: nat
    var events: Mask
    var read: Slot
    var write: Slot

    ghost function View(): Ctx
      reads this
    {
      Ctx(events, read, write)
    }

    constructor (fd: nat)
      ensures View() == EMPTY_CTX && this.fd == fd
    {
      this.fd := fd;
      events, read, write := NONE, EMPTY, EMPTY;
    }

    function GetContext(ev: Event): (s: Slot)
      reads this
      ensures s == View().Get(ev)
    {
      match ev
      case READ => read
      case WRITE => write
    }

    method SetContext(ev: Event, s: Slot)
      modifies this
      ensures View() == old(View()).Set(ev, s)
    {
      match ev
      case READ => read := s;
      case WRITE => write := s;
    }

    method ResetContext(ev: Event)
      modifies this
      ensures View() == old(View()).Set(ev, EMPTY)
    {
      SetContext(ev, EMPTY);
    }

    /** addEvent's part behind epoll_ctl: set the bit and fill the slot; aborts if the slot is in use. */
    method Fill(ev: Event, self: nat, cb: Option<Closure>) returns (aborted: bool)
      modifies this
      ensures aborted <==> old(View()).Get(ev) != EMPTY
      ensures !aborted ==>
        View() == old(View()).(events := old(events).With(ev)).Set(ev, if cb.Some? then Slot(true, None, cb) else Slot(true, Some(self), None))
    {
      events := events.With(ev);
      var slot := GetContext(ev);
      aborted := slot.scheduler || slot.fiber.Some? || slot.cb.Some?;
      if aborted { return; }
      slot := slot.(scheduler := true);
      slot := if cb.Some? then slot.(cb := cb) else slot.(fiber := Some(self));
      SetContext(ev, slot);
    }

    /** Moves the slot's work to the scheduler queue; aborts if the bit is not set. */
    method TriggerEvent(ev: Event, queue: seq<Task>) returns (aborted: bool, queue': seq<Task>)
      modifies this
      ensures aborted <==> !old(events).Has(ev)
      ensures aborted ==> unchanged(this)
      ensures !aborted ==>
        View() == Trigger(old(View()), ev) && queue' == Enqueue(queue, Taken(old(View()).Get(ev)))
    {
      aborted, queue' := !events.Has(ev), queue;
      if aborted { return; }
      events := events.Without(ev);
      var ctx := GetContext(ev);
      if ctx.cb.Some? {
        queue' := Enqueue(queue, Task(None, ctx.cb, None));
        ctx := ctx.(cb := None);
      } else {
        queue' := Enqueue(queue, Task(ctx.fiber, None, None));
        ctx := ctx.(fiber := None);
      }
      ctx := ctx.(scheduler := false);
      SetContext(ev, ctx);
    }
  }

  class EventPoller {
    var fdContexts: seq<FdContext>
    /** What epoll_ctl has put into the kernel's table. */
    var kernel: map<nat, Mask>
    var pendingEventCount: int
    /** The scheduler's list of tasks. */
    var fibers: seq<Task>

    ghost predicate Shape()
      reads this, fdContexts
    {
      && |fdContexts| >= 32
      && (forall i :: 0 <= i < |fdContexts| ==> fdContexts[i].fd == i)
    }

    ghost function View(): PollState
      reads this, fdContexts
    {
      PollState(seq(|fdContexts|, i requires 0 <= i < |fdContexts| reads this, fdContexts => fdContexts[i].View()),
             kernel, pendingEventCount)
    }

    constructor ()
      ensures Shape() && fibers == [] && View() == INITIAL
      ensures forall i :: 0 <= i < |fdContexts| ==> fresh(fdContexts[i])
    {
      fdContexts, kernel, pendingEventCount, fibers := [], map[], 0, [];
      new;
      assert View() == PollState([], map[], 0);
      ContextResize(32);
      InitialSize();
    }

    method ContextResize(size: nat)
      requires forall i :: 0 <= i < |fdContexts| ==> fdContexts[i].fd == i
      modifies this`fdContexts
      ensures old(fdContexts) <= fdContexts
      ensures forall i :: 0 <= i < |fdContexts| ==> fdContexts[i].fd == i
      ensures forall i :: |old(fdContexts)| <= i < |fdContexts| ==> fresh(fdContexts[i])
      ensures View() == old(View()).(ctxs := Resize(old(View()).ctxs, size))
    {
      if size <= |fdContexts| {
        assert View() == old(View());
        return;
      }
      var n := |fdContexts|;
      for i := n to size
        invariant |fdContexts| == i && old(fdContexts) <= fdContexts
        invariant forall j :: 0 <= j < i ==> fdContexts[j].fd == j
        invariant forall j :: n <= j < i ==> fresh(fdContexts[j]) && fdContexts[j].View() == EMPTY_CTX
      {
        var c := new FdContext(i);
        fdContexts := fdContexts + [c];
      }
      assert View().ctxs == Resize(old(View()).ctxs, size);
    }

    /** epoll_ctl, which may fail as it pleases and must fail on an illegal request. */
    method EpollCtl(op: CtlOp, fd: nat, mask: Mask, fails: bool) returns (rt: int)
      modifies this`kernel
      ensures if fails || !Legal(old(kernel), op, fd)
              then rt == -1 && kernel == old(kernel)
              else rt == 0 && kernel == Control(old(kernel), op, fd, mask)
    {
      if fails || (op == ADD) != (fd !in kernel) {
        return -1;
      }
      kernel := if op == DEL then kernel - {fd} else kernel[fd := mask];
      rt := 0;
    }

    lemma Touched(fd: nat, before: PollState, c: Ctx)
      requires Shape() && fd < |fdContexts| && fdContexts[fd].View() == c
      requires |before.ctxs| == |fdContexts|
      requires forall i :: 0 <= i < |fdContexts| && i != fd ==> fdContexts[i].View() == before.ctxs[i]
      ensures View() == PollState(before.ctxs[fd := c], kernel, pendingEventCount)
    {
    }

    /** addEvent(fd, event, cb): `self` is the calling fiber, used when no callback is given. */
    method AddEvent(fd: nat, ev: Event, self: nat, cb: Option<Closure>, fails: bool) returns (aborted: bool, rt: int)
      requires Shape()
      modifies this, fdContexts
      ensures Shape()
      ensures fibers == old(fibers)
      ensures old(fdContexts) <= fdContexts && forall i :: |old(fdContexts)| <= i < |fdContexts| ==> fresh(fdContexts[i])
      ensures fd < |Grown(old(View()).ctxs, fd)|
      ensures match P.AddEvent(old(View()), fd, ev, self, cb, fails)
        case Abort(_) => aborted
        case Done(p, ok, tasks) => !aborted && View() == p && rt == (if ok then 0 else -1)
    {
      rt := -1;
      ghost var start := View();
      if |fdContexts| <= fd {
        ContextResize(fd * 3 / 2);
      }
      ghost var grown := View();
      assert grown == start.(ctxs := Grown(start.ctxs, fd));
      var ctx := fdContexts[fd];
      aborted := ctx.events.Has(ev);
      if aborted { return; }
      var op := if ctx.events != NONE then MOD else ADD;
      rt := EpollCtl(op, fd, ctx.events.With(ev), fails);
      if rt != 0 {
        assert View() == PollState(grown.ctxs, kernel, pendingEventCount);
        return;
      }
      pendingEventCount := pendingEventCount + 1;
      aborted := ctx.Fill(ev, self, cb);
      if aborted { return; }
      Touched(fd, grown, ctx.View());
    }

    method DelEvent(fd: nat, ev: Event, fails: bool) returns (r: bool)
      requires Shape()
      modifies this, fdContexts
      ensures Shape() && fibers == old(fibers)
      ensures P.DelEvent(old(View()), fd, ev, fails) == Done(View(), r, [])
    {
      ghost var before := View();
      if |fdContexts| <= fd {
        return false;
      }
      var ctx := fdContexts[fd];
      if !ctx.events.Has(ev) {
        return false;
      }
      var left := ctx.events.Without(ev);
      var rt := EpollCtl(if left != NONE then MOD else DEL, fd, left, fails);
      if rt != 0 {
        assert View() == PollState(before.ctxs, kernel, pendingEventCount);
        return false;
      }
      pendingEventCount := pendingEventCount - 1;
      ctx.events := left;
      ctx.ResetContext(ev);
      Touched(fd, before, ctx.View());
      r := true;
    }

    method CancelEvent(fd: nat, ev: Event, fails: bool) returns (r: bool)
      requires Shape()
      modifies this, fdContexts
      ensures Shape() && fdContexts == old(fdContexts)
      ensures match P.CancelEvent(old(View()), fd, ev, fails)
        case Abort(_) => false
        case Done(p, ok, tasks) => View() == p && r == ok && fibers == old(fibers) + tasks
    {
      ghost var before := View();
      if |fdContexts| <= fd {
        return false;
      }
      var ctx := fdContexts[fd];
      if !ctx.events.Has(ev) {
        return false;
      }
      var left := ctx.events.Without(ev);
      var rt := EpollCtl(if left != NONE then MOD else DEL, fd, left, fails);
      if rt != 0 {
        assert View() == PollState(before.ctxs, kernel, pendingEventCount);
        return false;
      }
      pendingEventCount := pendingEventCount - 1;
      var aborted, queue := ctx.TriggerEvent(ev, fibers);
      fibers := queue;
      Touched(fd, before, ctx.View());
      r := true;
    }

    /** Triggers the given events of one context in the order READ, WRITE. */
    method TriggerEach(ctx: FdContext, which: Mask) returns (aborted: bool)
      requires Shape() && ctx in fdContexts
      modifies this`fibers, this`pendingEventCount, ctx
      ensures aborted <==> which.Minus(old(ctx.events)) != NONE
      ensures !aborted ==>
        var (c, tasks) := TriggerAll(old(ctx.View()), which);
        && ctx.View() == c && fibers == old(fibers) + tasks
        && pendingEventCount == old(pendingEventCount) - which.Size()
    {
      aborted := false;
      var queue := fibers;
      if which.read {
        aborted, queue := ctx.TriggerEvent(READ, queue);
        if aborted { return; }
        pendingEventCount := pendingEventCount - 1;
      }
      if which.write {
        aborted, queue := ctx.TriggerEvent(WRITE, queue);
        if aborted { return; }
        pendingEventCount := pendingEventCount - 1;
      }
      fibers := queue;
    }

    method CancelAll(fd: nat, fails: bool) returns (r: bool)
      requires Shape()
      modifies this, fdContexts
      ensures Shape()
      ensures match P.CancelAll(old(View()), fd, fails)
        case Abort(_) => false
        case Done(p, ok, tasks) => View() == p && r == ok && fibers == old(fibers) + tasks
    {
      ghost var before := View();
      if |fdContexts| <= fd {
        return false;
      }
      var ctx := fdContexts[fd];
      if ctx.events == NONE {
        return false;
      }
      var rt := EpollCtl(DEL, fd, NONE, fails);
      if rt != 0 {
        assert View() == PollState(before.ctxs, kernel, pendingEventCount);
        return false;
      }
      var aborted := TriggerEach(ctx, ctx.events);
      Touched(fd, before, ctx.View());
      assert ctx.events == NONE;
      r := true;
    }

    /** The body of idle's loop for one descriptor that epoll_wait reported. */
    method HandleReport(fd: nat, reported: Mask, hangup: bool, fails: bool) returns (aborted: bool)
      requires Shape() && fd < |fdContexts|
      modifies this, fdContexts
      ensures Shape() && fdContexts == old(fdContexts)
      ensures match Ready(old(View()), fd, reported, hangup, fails)
        case Abort(_) => aborted
        case Done(p, ok, tasks) => !aborted && View() == p && fibers == old(fibers) + tasks
    {
      ghost var before := View();
      var ctx := fdContexts[fd];
      var hit := reported;
      if hangup {
        hit := hit.Or(Mask(true, true).And(ctx.events));
      }
      aborted := false;
      if ctx.events.And(hit) == NONE {
        return;
      }
      var left := ctx.events.Minus(hit);
      var rt := EpollCtl(if left != NONE then MOD else DEL, fd, left, fails);
      if rt != 0 {
        assert View() == PollState(before.ctxs, kernel, pendingEventCount);
        return;
      }
      aborted := TriggerEach(ctx, hit);
      if aborted { return; }
      Touched(fd, before, ctx.View());
    }

    /** idle's loop over what epoll_wait reported. */
    method HandleReports(events: seq<Report>) returns (aborted: bool)
      requires Shape() && forall r :: r in events && r.OnFd? ==> r.fd < |fdContexts|
      modifies this, fdContexts
      ensures Shape()
      ensures match ReadyAll(old(View()), events)
        case Abort(_) => aborted
        case Done(p, _, tasks) => !aborted && View() == p && fibers == old(fibers) + tasks
    {
      aborted := false;
      ghost var todo := ReadyAll(View(), events);
      ghost var queued := [];
      assert events[0..] == events;
      for i := 0 to |events|
        invariant Shape() && !aborted && fdContexts == old(fdContexts) && fibers == old(fibers) + queued
        invariant todo == After(queued, ReadyAll(View(), events[i..]))
      {
        assert events[i..] == [events[i]] + events[i + 1..] && events[i..][1..] == events[i + 1..];
        assert events[i] in events;
        if events[i].Tickled? {
          continue;
        }
        ghost var tasks;
        aborted, tasks := HandleNext(events[i], events[i + 1..]);
        if aborted { return; }
        AfterTwice(queued, tasks, ReadyAll(View(), events[i + 1..]));
        queued := queued + tasks;
      }
    }

    method HandleNext(event: Report, ghost rest: seq<Report>) returns (aborted: bool, ghost tasks: seq<Task>)
      requires Shape() && event.OnFd? && event.fd < |fdContexts|
      modifies this, fdContexts
      ensures Shape() && fdContexts == old(fdContexts)
      ensures aborted ==> ReadyAll(old(View()), [event] + rest).Abort?
      ensures !aborted ==>
        fibers == old(fibers) + tasks && ReadyAll(old(View()), [event] + rest) == After(tasks, ReadyAll(View(), rest))
    {
      ghost var o := Ready(View(), event.fd, event.reported, event.hangup, event.fails);
      tasks := if o.Done? then o.tasks else [];
      assert ([event] + rest)[1..] == rest;
      aborted := HandleReport(event.fd, event.reported, event.hangup, event.fails);
    }

    /** An outcome behind work that has been queued already. */
    static ghost function After(queued: seq<Task>, o: Outcome): Outcome {
      match o
      case Abort(line) => Abort(line)
      case Done(p, ok, tasks) => Done(p, ok, queued + tasks)
    }

    static lemma AfterTwice(a: seq<Task>, b: seq<Task>, o: Outcome)
      ensures After(a, After(b, o)) == After(a + b, o)
    {
      if o.Done? { assert a + (b + o.tasks) == a + b + o.tasks; }
    }
  }
}
