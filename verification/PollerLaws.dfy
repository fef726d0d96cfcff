/** What every operation of the event poller keeps, when an assertion can fail,
    and that every registration is delivered exactly once. */
module PollerLaws {
  import opened Prelude
  import opened Tasks
  import opened Poller

  // ------------------------------------------------------------ sums over slots

  /** Weight of the work a slot holds. */
  ghost function SlotWeight(s: Slot, w: Task -> nat): nat {
    if s.scheduler then w(Taken(s)) else 0
  }

  ghost function CtxWeight(c: Ctx, w: Task -> nat): nat {
    SlotWeight(c.read, w) + SlotWeight(c.write, w)
  }

  /** Weight of everything registered and not yet delivered. */
  ghost function Pending(ctxs: seq<Ctx>, w: Task -> nat): nat {
    if ctxs == [] then 0 else CtxWeight(ctxs[0], w) + Pending(ctxs[1..], w)
  }

  lemma {:induction false} PendingUpdate(ctxs: seq<Ctx>, fd: nat, c: Ctx, w: Task -> nat)
    requires fd < |ctxs|
    ensures Pending(ctxs[fd := c], w) + CtxWeight(ctxs[fd], w) == Pending(ctxs, w) + CtxWeight(c, w)
  {
    var changed := ctxs[fd := c];
    if fd > 0 {
      assert changed[1..] == ctxs[1..][fd - 1 := c];
      PendingUpdate(ctxs[1..], fd - 1, c, w);
      assert Pending(changed, w) == CtxWeight(ctxs[0], w) + Pending(changed[1..], w);
    } else {
      assert changed[1..] == ctxs[1..];
    }
  }

  lemma {:induction false} PendingContains(ctxs: seq<Ctx>, fd: nat, w: Task -> nat)
    requires fd < |ctxs|
    ensures CtxWeight(ctxs[fd], w) <= Pending(ctxs, w)
  {
    if fd > 0 {
      PendingContains(ctxs[1..], fd - 1, w);
    }
  }

  lemma {:induction false} BitCountUpdate(ctxs: seq<Ctx>, fd: nat, c: Ctx)
    requires fd < |ctxs|
    ensures BitCount(ctxs[fd := c]) + ctxs[fd].events.Size() == BitCount(ctxs) + c.events.Size()
  {
    if fd > 0 {
      assert ctxs[fd := c][1..] == ctxs[1..][fd - 1 := c];
      BitCountUpdate(ctxs[1..], fd - 1, c);
    } else {
      assert ctxs[fd := c][1..] == ctxs[1..];
    }
  }

  /** Growing the vector adds empty contexts only. */
  lemma {:induction false} GrowthIsEmpty(ctxs: seq<Ctx>, k: nat, w: Task -> nat)
    ensures Pending(ctxs + seq(k, _ => EMPTY_CTX), w) == Pending(ctxs, w)
    ensures BitCount(ctxs + seq(k, _ => EMPTY_CTX)) == BitCount(ctxs)
    decreases |ctxs| + k
  {
    var tail := seq(k, _ => EMPTY_CTX);
    if ctxs == [] {
      assert ctxs + tail == tail;
      if k > 0 {
        assert tail[1..] == [] + seq(k - 1, _ => EMPTY_CTX);
        GrowthIsEmpty([], k - 1, w);
      }
    } else {
      assert (ctxs + tail)[1..] == ctxs[1..] + tail;
      GrowthIsEmpty(ctxs[1..], k, w);
    }
  }

  lemma GrownKeeps(ctxs: seq<Ctx>, fd: nat, w: Task -> nat)
    requires |ctxs| >= 32
    ensures fd < |Grown(ctxs, fd)|
    ensures |Grown(ctxs, fd)| == if fd < |ctxs| then |ctxs| else fd + fd / 2
    ensures ctxs <= Grown(ctxs, fd)
    ensures forall k :: |ctxs| <= k < |Grown(ctxs, fd)| ==> Grown(ctxs, fd)[k] == EMPTY_CTX
    ensures Pending(Grown(ctxs, fd), w) == Pending(ctxs, w)
    ensures BitCount(Grown(ctxs, fd)) == BitCount(ctxs)
  {
    if fd >= |ctxs| {
      GrowthIsEmpty(ctxs, fd * 3 / 2 - |ctxs|, w);
    }
  }

  // --------------------------------------------------------- one context at a time

  /** Triggering a set bit empties its slot, hands over exactly what it held and leaves the other bit alone. */
  lemma TriggerOne(c: Ctx, ev: Event, w: Task -> nat)
    requires CtxOk(c) && c.events.Has(ev)
    ensures CtxOk(Trigger(c, ev))
    ensures Taken(c.Get(ev)).NonEmpty()
    ensures CtxWeight(Trigger(c, ev), w) + w(Taken(c.Get(ev))) == CtxWeight(c, w)
    ensures Trigger(c, ev).events == c.events.Without(ev)
    ensures forall e :: e != ev ==> Trigger(c, ev).Get(e) == c.Get(e)
  {
    var e: Event := if ev == READ then WRITE else READ;
    assert SlotOk(c, ev) && SlotOk(c, e);
    assert SlotOk(Trigger(c, ev), ev) && SlotOk(Trigger(c, ev), e);
  }

  lemma TriggerMany(c: Ctx, which: Mask, w: Task -> nat)
    requires CtxOk(c) && which.Minus(c.events) == NONE
    ensures var (c', tasks) := TriggerAll(c, which);
      && CtxOk(c') && c'.events == c.events.Minus(which)
      && (forall t :: t in tasks ==> t.NonEmpty())
      && CtxWeight(c', w) + Total(tasks, w) == CtxWeight(c, w)
      && |tasks| == which.Size()
  {
    var (c1, q1) := if which.read then (Trigger(c, READ), Enqueue([], Taken(c.read))) else (c, []);
    if which.read {
      TriggerOne(c, READ, w);
      TotalOne(Taken(c.read), w);
    }
    var (c', tasks) := TriggerAll(c, which);
    if which.write {
      TriggerOne(c1, WRITE, w);
      TotalAppend(q1, Taken(c1.write), w);
    }
  }

  // ------------------------------------------------------------- the operations

  lemma InitialInv()
    ensures Inv(INITIAL)
  {
    var unit: Task -> nat := (_: Task) => 0;
    GrowthIsEmpty([], 32, unit);
    assert [] + seq(32, _ => EMPTY_CTX) == INITIAL.ctxs;
    assert CtxOk(EMPTY_CTX);
  }

  lemma InitialSize()
    ensures PollState(Resize([], 32), map[], 0) == INITIAL
  {
    assert [] + seq(32, _ => EMPTY_CTX) == INITIAL.ctxs;
  }

  /** The epoll_ctl operation that takes a descriptor from one registered set to another. */
  function OpFor(before: Mask, after: Mask): CtlOp {
    if before == NONE then ADD else if after == NONE then DEL else MOD
  }

  lemma MirrorReplace(p: PollState, fd: nat, c: Ctx, pending: int)
    requires Mirror(p) && fd < |p.ctxs| && (p.ctxs[fd].events != NONE || c.events != NONE)
    ensures Legal(p.kernel, OpFor(p.ctxs[fd].events, c.events), fd)
    ensures Mirror(PollState(p.ctxs[fd := c], Control(p.kernel, OpFor(p.ctxs[fd].events, c.events), fd, c.events), pending))
  {
  }

  /** Replacing one context together with the kernel call that matches: the call is legal, the
      invariant is kept and only that context's weight changes. */
  lemma ReplaceCtx(p: PollState, fd: nat, c: Ctx, w: Task -> nat)
    requires Inv(p) && fd < |p.ctxs| && CtxOk(c)
    requires p.ctxs[fd].events != NONE || c.events != NONE
    ensures Legal(p.kernel, OpFor(p.ctxs[fd].events, c.events), fd)
    ensures Inv(PollState(p.ctxs[fd := c], Control(p.kernel, OpFor(p.ctxs[fd].events, c.events), fd, c.events),
                       p.pending - p.ctxs[fd].events.Size() + c.events.Size()))
    ensures Pending(p.ctxs[fd := c], w) + CtxWeight(p.ctxs[fd], w) == Pending(p.ctxs, w) + CtxWeight(c, w)
  {
    MirrorReplace(p, fd, c, p.pending - p.ctxs[fd].events.Size() + c.events.Size());
    BitCountUpdate(p.ctxs, fd, c);
    PendingUpdate(p.ctxs, fd, c, w);
  }

  lemma GrownKeepsInv(p: PollState, fd: nat)
    requires Inv(p)
    ensures fd < |Grown(p.ctxs, fd)|
    ensures Inv(p.(ctxs := Grown(p.ctxs, fd)))
  {
    var unit: Task -> nat := (_: Task) => 0;
    GrownKeeps(p.ctxs, fd, unit);
    assert CtxOk(EMPTY_CTX);
    var q := p.(ctxs := Grown(p.ctxs, fd));
    forall f | 0 <= f < |q.ctxs|
      ensures CtxOk(q.ctxs[f])
    {
      if f < |p.ctxs| { assert q.ctxs[f] == p.ctxs[f]; }
    }
    forall f | 0 <= f < |q.ctxs| && q.ctxs[f].events != NONE
      ensures f in q.kernel
    {
      if f < |p.ctxs| { assert q.ctxs[f] == p.ctxs[f]; }
    }
  }

  /** Filling an empty slot. */
  lemma FillSlot(c: Ctx, ev: Event, s: Slot, w: Task -> nat)
    requires CtxOk(c) && !c.events.Has(ev)
    requires s.scheduler && s.fiber.Some? != s.cb.Some?
    ensures c.Get(ev) == EMPTY
    ensures var c' := c.(events := c.events.With(ev)).Set(ev, s);
      && CtxOk(c') && c'.events.Size() == c.events.Size() + 1 && c'.Get(ev) == s
      && CtxWeight(c', w) == CtxWeight(c, w) + w(Taken(s))
  {
    var e: Event := if ev == READ then WRITE else READ;
    var c' := c.(events := c.events.With(ev)).Set(ev, s);
    assert SlotOk(c, e) && SlotOk(c, ev);
    assert SlotOk(c', ev) && SlotOk(c', e);
  }

  /** Clearing a slot without delivering it. */
  lemma ClearSlot(c: Ctx, ev: Event, w: Task -> nat)
    requires CtxOk(c) && c.events.Has(ev)
    ensures var c' := c.(events := c.events.Without(ev)).Set(ev, EMPTY);
      && CtxOk(c') && c'.events.Size() == c.events.Size() - 1
      && CtxWeight(c, w) == CtxWeight(c', w) + w(Taken(c.Get(ev)))
  {
    var e: Event := if ev == READ then WRITE else READ;
    var c' := c.(events := c.events.Without(ev)).Set(ev, EMPTY);
    assert SlotOk(c, e) && SlotOk(c, ev);
    assert SlotOk(c', ev) && SlotOk(c', e);
  }

  /** The work addEvent registers: the callback given, else the calling fiber. */
  function Work(self: nat, cb: Option<Closure>): Task {
    if cb.Some? then Task(None, cb, None) else Task(Some(self), None, None)
  }

  /** addEvent aborts exactly when the event is already registered; the slot assertion at line 157
      never fails; it fails exactly when epoll_ctl does, and otherwise registers this very work. */
  lemma AddEventLaw(p: PollState, fd: nat, ev: Event, self: nat, cb: Option<Closure>, fails: bool, w: Task -> nat)
    requires Inv(p)
    ensures fd < |Grown(p.ctxs, fd)|
    ensures match AddEvent(p, fd, ev, self, cb, fails)
      case Abort(line) => line == 137 && fd < |p.ctxs| && p.ctxs[fd].events.Has(ev)
      case Done(p', ok, tasks) =>
        && !(fd < |p.ctxs| && p.ctxs[fd].events.Has(ev))
        && Inv(p') && tasks == [] && ok == !fails
        && Pending(p'.ctxs, w) == Pending(p.ctxs, w) + (if ok then w(Work(self, cb)) else 0)
        && (ok ==> fd < |p'.ctxs| && p'.ctxs[fd].events.Has(ev) && Taken(p'.ctxs[fd].Get(ev)) == Work(self, cb))
  {
    GrownKeepsInv(p, fd);
    GrownKeeps(p.ctxs, fd, w);
    var q := p.(ctxs := Grown(p.ctxs, fd));
    if !q.ctxs[fd].events.Has(ev) {
      var slot := if cb.Some? then Slot(true, None, cb) else Slot(true, Some(self), None);
      FillSlot(q.ctxs[fd], ev, slot, w);
      ReplaceCtx(q, fd, q.ctxs[fd].(events := q.ctxs[fd].events.With(ev)).Set(ev, slot), w);
    }
  }

  /** delEvent removes the registration without scheduling it. */
  lemma DelEventLaw(p: PollState, fd: nat, ev: Event, fails: bool, w: Task -> nat)
    requires Inv(p)
    ensures match DelEvent(p, fd, ev, fails)
      case Abort(_) => false
      case Done(p', ok, tasks) =>
        && Inv(p') && tasks == []
        && (ok <==> fd < |p.ctxs| && p.ctxs[fd].events.Has(ev) && !fails)
        && Pending(p.ctxs, w) ==
           Pending(p'.ctxs, w) + (if ok then w(Taken(p.ctxs[fd].Get(ev))) else 0)
  {
    if fd < |p.ctxs| && p.ctxs[fd].events.Has(ev) {
      var c := p.ctxs[fd];
      ClearSlot(c, ev, w);
      ReplaceCtx(p, fd, c.(events := c.events.Without(ev)).Set(ev, EMPTY), w);
    }
  }

  lemma CancelEventLaw(p: PollState, fd: nat, ev: Event, fails: bool, w: Task -> nat)
    requires Inv(p)
    ensures match CancelEvent(p, fd, ev, fails)
      case Abort(_) => false
      case Done(p', ok, tasks) =>
        && Inv(p')
        && (ok <==> fd < |p.ctxs| && p.ctxs[fd].events.Has(ev) && !fails)
        && (ok ==> tasks == [Taken(p.ctxs[fd].Get(ev))] && tasks[0].NonEmpty())
        && (!ok ==> tasks == [] && p' == p)
        && Pending(p.ctxs, w) == Pending(p'.ctxs, w) + Total(tasks, w)
  {
    if fd < |p.ctxs| && p.ctxs[fd].events.Has(ev) {
      var c := p.ctxs[fd];
      TriggerOne(c, ev, w);
      TotalOne(Taken(c.Get(ev)), w);
      ReplaceCtx(p, fd, Trigger(c, ev), w);
    }
  }

  lemma CancelAllLaw(p: PollState, fd: nat, fails: bool, w: Task -> nat)
    requires Inv(p)
    ensures match CancelAll(p, fd, fails)
      case Abort(_) => false
      case Done(p', ok, tasks) =>
        && Inv(p')
        && (ok <==> fd < |p.ctxs| && p.ctxs[fd].events != NONE && !fails)
        && (ok ==> fd !in p'.kernel && p'.ctxs[fd].events == NONE && |tasks| == p.ctxs[fd].events.Size())
        && (!ok ==> tasks == [] && p' == p)
        && (forall t :: t in tasks ==> t.NonEmpty())
        && Pending(p.ctxs, w) == Pending(p'.ctxs, w) + Total(tasks, w)
  {
    if fd < |p.ctxs| && p.ctxs[fd].events != NONE {
      var c := p.ctxs[fd];
      TriggerMany(c, c.events, w);
      ReplaceCtx(p, fd, TriggerAll(c, c.events).0, w);
    }
  }

  /** The report names a bit that is no longer registered while another one still is: a bit was
      cancelled between epoll_wait and the descriptor lock. */
  predicate Stale(c: Ctx, reported: Mask, hangup: bool) {
    reported.Minus(c.events) != NONE && (if hangup then c.events != NONE else c.events.And(reported) != NONE)
  }

  lemma RegisteredIsLegal(p: PollState, fd: nat, left: Mask)
    requires Inv(p) && fd < |p.ctxs| && p.ctxs[fd].events != NONE
    ensures Legal(p.kernel, if left != NONE then MOD else DEL, fd)
  {}

  /** idle aborts in triggerEvent exactly on a stale report that epoll_ctl does not refuse; otherwise it
      delivers precisely the registered work of the reported bits. */
  lemma ReadyLaw(p: PollState, fd: nat, reported: Mask, hangup: bool, fails: bool, w: Task -> nat)
    requires Inv(p) && fd < |p.ctxs|
    ensures var c := p.ctxs[fd];
      match Ready(p, fd, reported, hangup, fails)
      case Abort(line) => line == 88 && !fails && Stale(c, reported, hangup)
      case Done(p', ok, tasks) =>
        && (fails || !Stale(c, reported, hangup))
        && Inv(p')
        && (ok <==> c.events.And(Hit(c, reported, hangup)) != NONE && !fails)
        && (ok ==> |tasks| == Hit(c, reported, hangup).Size()
                   && p'.ctxs[fd].events == c.events.Minus(Hit(c, reported, hangup)))
        && (!ok ==> tasks == [] && p' == p)
        && (forall t :: t in tasks ==> t.NonEmpty())
        && Pending(p.ctxs, w) == Pending(p'.ctxs, w) + Total(tasks, w)
  {
    var c := p.ctxs[fd];
    var hit := Hit(c, reported, hangup);
    if c.events.And(hit) != NONE {
      RegisteredIsLegal(p, fd, c.events.Minus(hit));
      if hit.Minus(c.events) == NONE {
        TriggerMany(c, hit, w);
        ReplaceCtx(p, fd, TriggerAll(c, hit).0, w);
      }
    }
  }

  // ------------------------------------------------- what an operation does to the slots

  /** The work a set bit stands for: its callback, or else its fiber. */
  function WorkOf(c: Ctx, ev: Event): seq<Task> {
    if !c.events.Has(ev) then []
    else
      match c.Get(ev).cb
      case Some(cb) => [Task(None, Some(cb), None)]
      case None => [Task(c.Get(ev).fiber, None, None)]
  }

  /** From `p` to `q` the events `which` of descriptor `fd` have been cleared and their slots emptied; every other bit
      and slot is as before. */
  ghost predicate Cleared(p: PollState, q: PollState, fd: nat, which: Mask) {
    && fd < |p.ctxs| == |q.ctxs|
    && (forall g :: 0 <= g < |p.ctxs| && g != fd ==> q.ctxs[g] == p.ctxs[g])
    && (forall ev: Event ::
          if which.Has(ev) then !q.ctxs[fd].events.Has(ev) && q.ctxs[fd].Get(ev) == EMPTY
          else (q.ctxs[fd].events.Has(ev) <==> p.ctxs[fd].events.Has(ev)) && q.ctxs[fd].Get(ev) == p.ctxs[fd].Get(ev))
  }

  /** READ's work comes before WRITE's. */
  function WorkFor(c: Ctx, which: Mask): seq<Task> {
    (if which.read then WorkOf(c, READ) else []) + (if which.write then WorkOf(c, WRITE) else [])
  }

  lemma TriggerClears(c: Ctx, which: Mask)
    requires CtxOk(c) && which.Minus(c.events) == NONE
    ensures var (c', tasks) := TriggerAll(c, which);
      && tasks == WorkFor(c, which)
      && forall ev: Event ::
           if which.Has(ev) then !c'.events.Has(ev) && c'.Get(ev) == EMPTY
           else (c'.events.Has(ev) <==> c.events.Has(ev)) && c'.Get(ev) == c.Get(ev)
  {
    assert SlotOk(c, READ) && SlotOk(c, WRITE);
  }

  /** A report that is neither refused nor stale ends the wait for just the events it is about: the registered ones it
      names, and with EPOLLERR or EPOLLHUP all registered ones, named or not. Their work is queued, READ's first. A
      refused one changes nothing. */
  lemma ReportDelivers(p: PollState, fd: nat, reported: Mask, hangup: bool, fails: bool)
    requires Inv(p) && fd < |p.ctxs| && (fails || !Stale(p.ctxs[fd], reported, hangup))
    ensures Ready(p, fd, reported, hangup, fails).Done?
    ensures var c := p.ctxs[fd];
      var o := Ready(p, fd, reported, hangup, fails);
      var about := Mask(c.events.read && (hangup || reported.read), c.events.write && (hangup || reported.write));
      if fails then o.poller == p && o.tasks == [] && !o.ok
      else Cleared(p, o.poller, fd, about) && o.tasks == WorkFor(c, about) && (o.ok <==> about.read || about.write)
  {
    var c := p.ctxs[fd];
    var hit := Hit(c, reported, hangup);
    if c.events.And(hit) != NONE {
      RegisteredIsLegal(p, fd, c.events.Minus(hit));
      if hit.Minus(c.events) == NONE { TriggerClears(c, hit); }
    }
  }

  /** cancelEvent ends the wait for just that event, cancelAll for every registered one of the descriptor. */
  lemma CancelDelivers(p: PollState, fd: nat, ev: Event)
    requires Inv(p) && fd < |p.ctxs|
    ensures var c := p.ctxs[fd];
      var only := if c.events.Has(ev) then NONE.With(ev) else NONE;
      var o := CancelEvent(p, fd, ev, false);
      o.Done? && Cleared(p, o.poller, fd, only) && o.tasks == WorkFor(c, only)
    ensures var c := p.ctxs[fd];
      var o := CancelAll(p, fd, false);
      o.Done? && Cleared(p, o.poller, fd, c.events) && o.tasks == WorkFor(c, c.events)
  {
    var c := p.ctxs[fd];
    assert SlotOk(c, READ) && SlotOk(c, WRITE);
    if c.events != NONE {
      RegisteredIsLegal(p, fd, c.events.Without(ev));
      TriggerClears(c, c.events);
      if c.events.Has(ev) { TriggerClears(c, NONE.With(ev)); }
    }
  }

  /** Report number `i` is the stale one: the reports before it went through, and it is stale in the state they left. */
  ghost predicate StaleAt(p: PollState, rs: seq<Report>, i: nat) {
    i < |rs| && rs[i].OnFd? && !rs[i].fails && ReadyAll(p, rs[..i]).Done? &&
    var q := ReadyAll(p, rs[..i]).poller;
    rs[i].fd < |q.ctxs| && Stale(q.ctxs[rs[i].fd], rs[i].reported, rs[i].hangup)
  }

  /** What the first report does to the rest of the pass. */
  lemma ReadyAllFirst(p: PollState, rs: seq<Report>, i: nat)
    requires 0 < i <= |rs|
    ensures rs[..i][1..] == rs[1..][..i - 1] && rs[..i][0] == rs[0]
  {
  }

  lemma StaleLater(p: PollState, rs: seq<Report>, q: PollState, i: nat)
    requires rs != [] && StaleAt(q, rs[1..], i)
    requires if rs[0].Tickled? || rs[0].fd >= |p.ctxs| then q == p
      else Ready(p, rs[0].fd, rs[0].reported, rs[0].hangup, rs[0].fails).Done?
           && q == Ready(p, rs[0].fd, rs[0].reported, rs[0].hangup, rs[0].fails).poller
    ensures StaleAt(p, rs, i + 1)
  {
    ReadyAllFirst(p, rs, i + 1);
  }

  /** A whole pass over the reports keeps the invariant and moves work only from the slots to the queue; it fails
      exactly at a report that is stale in the state reached by then. */
  lemma {:induction false} ReadyAllLaw(p: PollState, rs: seq<Report>, w: Task -> nat)
    requires Inv(p)
    ensures match ReadyAll(p, rs)
      case Abort(line) => line == 88 && exists i :: StaleAt(p, rs, i)
      case Done(p', _, tasks) =>
        && Inv(p') && |p'.ctxs| == |p.ctxs|
        && Pending(p.ctxs, w) == Pending(p'.ctxs, w) + Total(tasks, w)
    decreases |rs|
  {
    if rs != [] {
      if rs[0].Tickled? || rs[0].fd >= |p.ctxs| {
        ReadyAllLaw(p, rs[1..], w);
        if ReadyAll(p, rs[1..]).Abort? { LaterStale(p, rs, p); }
      } else {
        ReadyLaw(p, rs[0].fd, rs[0].reported, rs[0].hangup, rs[0].fails, w);
        var o := Ready(p, rs[0].fd, rs[0].reported, rs[0].hangup, rs[0].fails);
        if o.Done? {
          ReadyAllLaw(o.poller, rs[1..], w);
          var rest := ReadyAll(o.poller, rs[1..]);
          if rest.Done? { TotalConcat(o.tasks, rest.tasks, w); } else { LaterStale(p, rs, o.poller); }
        } else {
          assert rs[..0] == [];
          assert StaleAt(p, rs, 0);
        }
      }
    }
  }

  lemma LaterStale(p: PollState, rs: seq<Report>, q: PollState)
    requires rs != [] && exists i :: StaleAt(q, rs[1..], i)
    requires if rs[0].Tickled? || rs[0].fd >= |p.ctxs| then q == p
      else Ready(p, rs[0].fd, rs[0].reported, rs[0].hangup, rs[0].fails).Done?
           && q == Ready(p, rs[0].fd, rs[0].reported, rs[0].hangup, rs[0].fails).poller
    ensures exists i :: StaleAt(p, rs, i)
  {
    var i: nat :| StaleAt(q, rs[1..], i);
    StaleLater(p, rs, q, i);
  }

  /** close(fd) keeps the mirror exactly when nothing is registered any more, that is when the
      preceding cancelAll was not refused by epoll_ctl. */
  lemma CloseKeepsInvIff(p: PollState, fd: nat)
    requires Inv(p)
    ensures Inv(Closed(p, fd)) <==> (fd < |p.ctxs| ==> p.ctxs[fd].events == NONE)
  {
    if fd < |p.ctxs| && p.ctxs[fd].events != NONE {
      assert fd !in Closed(p, fd).kernel;
    } else {
      assert fd !in p.kernel;
      assert Closed(p, fd) == p by { assert p.kernel - {fd} == p.kernel; }
    }
  }
}
