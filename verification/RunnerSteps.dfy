/** The loop of Scheduler.dfy refines the steps of Runtime.dfy: from a state that satisfies the invariant of all runs,
    each stretch of one thread's code meets its assertions and computes the step, whatever the other threads
    have done before. */
module RunnerSteps {
  import opened Prelude
  import opened Tasks
  import opened Scheduling
  import R = Runtime
  import Inv = RuntimeInv

  /** What the thread has in hand at its place in the loop. */
  ghost predicate InHand(r: Runner, held: R.Held)
    reads r`phase, r`ft, r`isActive
  {
    match r.phase
    case InHand => held == R.Picked(r.ft) && r.isActive
    case Switched(TaskFiber(f)) => held == R.RunFiber(f, r.ft)
    case Switched(CbFiber(g)) => held.RunCb? && held.fiber == g && held.task == r.ft
    case Switched(IdleFiber) => held.RunIdle?
    case _ => held == R.Nothing
  }

  ghost predicate SameStates(fibers: seq<Fiber>, states: seq<R.Fiber>)
    reads fibers
  {
    |fibers| == |states| && forall k :: 0 <= k < |fibers| ==> fibers[k].state == states[k].state
  }

  /** The scheduler's objects and thread r's locals look like `s`. */
  ghost predicate Shows(r: Runner, s: R.State)
    reads r, r.sched, r.sched.fibers, r.idleFiber
  {
    && r.sched.Valid() && r.idleFiber !in r.sched.fibers
    && s.queue == r.sched.queue && s.active == r.sched.active && SameStates(r.sched.fibers, s.fibers)
    && r.id < |s.threads|
    && var th := s.threads[r.id];
      && th.cbFiber == r.cbFiber && th.idle == r.idleFiber.state && th.running == (r.phase != Left)
      && InHand(r, th.held)
  }

  predicate SameKinds(a: seq<R.Fiber>, b: seq<R.Fiber>) {
    |a| == |b| && forall k :: 0 <= k < |a| ==> a[k].state == b[k].state
  }

  /** Only the fibers' states matter for the pick. */
  lemma SamePick(queue: seq<Task>, a: seq<R.Fiber>, b: seq<R.Fiber>, id: nat)
    requires SameKinds(a, b)
    ensures R.FirstEligible(queue, a, id) == R.FirstEligible(queue, b, id)
  {
    Scheduler.FirstIs(queue, b, id, R.FirstEligible(queue, a, id));
  }

  /** What Runtime's pick does to the parts that Shows looks at. */
  lemma PickIs(s: R.State, id: nat)
    requires Inv.RuntimeOk(s) && R.Enabled(s, R.Pick(id))
    ensures R.Step(s, R.Pick(id)).Ok?
    ensures var i := R.FirstEligible(s.queue, s.fibers, id);
      var th, s' := s.threads[id], R.Step(s, R.Pick(id)).state;
      if i < |s.queue| then
        && s'.queue == s.queue[..i] + s.queue[i + 1..] && s'.active == s.active + 1 && SameKinds(s.fibers, s'.fibers)
        && s'.threads == s.threads[id := th.(held := R.Picked(s.queue[i]))]
      else
        && s'.queue == s.queue && s'.active == s.active && s'.fibers == s.fibers
        && s'.threads == s.threads[id := if th.idle == R.TERM then th.(running := false) else th.(held := R.RunIdle([]), idle := R.EXEC)]
  {
    assert Inv.ThreadOk(s.fibers, s.threads[id], id);
    var i := R.FirstEligible(s.queue, s.fibers, id);
    assert i < |s.queue| ==> Inv.TaskOk(s.queue[i], s.calls);
  }

  /** Run's own pick and, with nothing to pick, its switch to the idle fiber or the end of the loop. */
  method PickOrIdle(r: Runner)
    requires r.phase == Head && r.AtHead() && r.sched.Valid()
    modifies r, r.sched, r.sched.fibers, r.idleFiber
    ensures r.sched.Valid() && r.sched.fibers == old(r.sched.fibers) && r.cbFiber == old(r.cbFiber) && r.idleFiber !in r.sched.fibers
    ensures forall k :: 0 <= k < |r.sched.fibers| ==> r.sched.fibers[k].state == old(r.sched.fibers[k].state)
    ensures var i := R.FirstEligible(old(r.sched.queue), old(r.sched.States()), r.id);
      if i < |old(r.sched.queue)| then
        && r.phase == Phase.InHand && r.isActive && r.ft == old(r.sched.queue)[i] && r.idleFiber.state == old(r.idleFiber.state)
        && r.sched.queue == old(r.sched.queue)[..i] + old(r.sched.queue)[i + 1..] && r.sched.active == old(r.sched.active) + 1
      else
        && r.sched.queue == old(r.sched.queue) && r.sched.active == old(r.sched.active)
        && if old(r.idleFiber.state) == R.TERM then r.phase == Left && r.idleFiber.state == R.TERM
           else r.phase == Switched(IdleFiber) && r.idleFiber.state == R.EXEC
  {
    var tickle := r.PickTask();
    if !r.isActive {
      r.SwitchIn();
    }
  }

  /** The pick, and with nothing to pick the switch to the idle fiber or the end of the loop. */
  method Pick(r: Runner, ghost s: R.State)
    requires Inv.RuntimeOk(s) && Shows(r, s) && R.Enabled(s, R.Pick(r.id))
    modifies r, r.sched, r.sched.fibers, r.idleFiber
    ensures R.Step(s, R.Pick(r.id)).Ok? && Shows(r, R.Step(s, R.Pick(r.id)).state)
  {
    assert Inv.ThreadOk(s.fibers, s.threads[r.id], r.id);
    PickIs(s, r.id);
    SamePick(s.queue, r.sched.States(), s.fibers, r.id);
    PickOrIdle(r);
  }

  /** The switch into the task's fiber or the callback fiber, or the end of a task whose fiber has ended. */
  method Enter(r: Runner, ghost s: R.State)
    requires Inv.RuntimeOk(s) && Shows(r, s) && R.Enabled(s, R.Enter(r.id))
    modifies r, r.sched, r.sched.fibers, r.idleFiber
    ensures R.Step(s, R.Enter(r.id)).Ok? && Shows(r, R.Step(s, R.Enter(r.id)).state)
  {
    assert Inv.ThreadOk(s.fibers, s.threads[r.id], r.id);
    r.SwitchIn();
  }

  /** The fiber running on the thread yields, and the bookkeeping behind the switch. */
  method Yield(r: Runner, ghost s: R.State)
    requires Inv.RuntimeOk(s) && Shows(r, s) && R.Enabled(s, R.Yield(r.id))
    modifies r, r.sched, r.sched.fibers, r.idleFiber
    ensures R.Step(s, R.Yield(r.id)).Ok? && Shows(r, R.Step(s, R.Yield(r.id)).state)
  {
    assert Inv.ThreadOk(s.fibers, s.threads[r.id], r.id);
    r.sched.fibers[r.phase.branch.f].YieldToHold();
    r.SwitchBack();
  }

  /** The fiber running on the thread returns or throws, and the bookkeeping behind the switch. */
  method Finish(r: Runner, threw: bool, ghost s: R.State)
    requires Inv.RuntimeOk(s) && Shows(r, s) && R.Enabled(s, R.Finish(r.id, threw))
    modifies r, r.sched, r.sched.fibers, r.idleFiber
    ensures R.Step(s, R.Finish(r.id, threw)).Ok? && Shows(r, R.Step(s, R.Finish(r.id, threw)).state)
  {
    assert Inv.ThreadOk(s.fibers, s.threads[r.id], r.id);
    r.sched.fibers[r.phase.branch.f].End(threw);
    r.SwitchBack();
  }

  method IdleYield(r: Runner, ghost s: R.State)
    requires Inv.RuntimeOk(s) && Shows(r, s) && R.Enabled(s, R.IdleYield(r.id))
    modifies r, r.sched, r.sched.fibers, r.idleFiber
    ensures R.Step(s, R.IdleYield(r.id)).Ok? && Shows(r, R.Step(s, R.IdleYield(r.id)).state)
  {
    assert Inv.ThreadOk(s.fibers, s.threads[r.id], r.id);
    r.idleFiber.YieldToHold();
    r.SwitchBack();
  }

  /** The idle fiber ends; the next pick that finds nothing ends the loop. */
  method IdleFinish(r: Runner, ghost s: R.State)
    requires Inv.RuntimeOk(s) && Shows(r, s) && R.Enabled(s, R.IdleFinish(r.id))
    modifies r, r.sched, r.sched.fibers, r.idleFiber
    ensures R.Step(s, R.IdleFinish(r.id)).Ok? && Shows(r, R.Step(s, R.IdleFinish(r.id)).state)
  {
    assert Inv.ThreadOk(s.fibers, s.threads[r.id], r.id);
    r.idleFiber.End(false);
    r.SwitchBack();
  }
}
