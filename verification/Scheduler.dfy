/** Scheduler::run as it is written: one thread's loop over the shared queue, the fibers it switches to and
    the callback fiber it reuses. The source's assertions are preconditions here, so that they hold is part of
    what is proved. Runtime.dfy has the same steps for many threads at once. */
module Scheduling {
  import opened Prelude
  import opened Tasks
  import R = Runtime

  class Fiber {
    var state: R.FState
    var cb: Option<Closure>

    constructor (cb: Option<Closure>)
      ensures state == R.INIT && this.cb == cb
    {
      state, this.cb := R.INIT, cb;
    }

    method Reset(cb: Option<Closure>)
      requires state == R.INIT || state == R.TERM || state == R.EXCEPT
      modifies this
      ensures state == R.INIT && this.cb == cb
    {
      state, this.cb := R.INIT, cb;
    }

    method SwapIn()
      requires state != R.EXEC
      modifies this`state
      ensures state == R.EXEC
    {
      state := R.EXEC;
    }

    method YieldToHold()
      requires state == R.EXEC
      modifies this`state
      ensures state == R.HOLD
    {
      state := R.HOLD;
    }

    /** MainFunc behind the callback: it returned, or threw. */
    method End(threw: bool)
      requires state == R.EXEC
      modifies this
      ensures state == (if threw then R.EXCEPT else R.TERM) && cb == if threw then old(cb) else None
    {
      if threw {
        state := R.EXCEPT;
      } else {
        cb := None;
        state := R.TERM;
      }
    }
  }

  /** The tasks that carry something, unpinned and in order. */
  function Carrying(items: seq<Task>): (r: seq<Task>)
    ensures forall t :: t in r ==> t.NonEmpty()
  {
    if items == [] then [] else
      var last := items[|items| - 1].(thread := None);
      Carrying(items[..|items| - 1]) + if last.NonEmpty() then [last] else []
  }

  /** How many of the items carry something. */
  function CarryingCount(items: seq<Task>): nat {
    if items == [] then 0
    else CarryingCount(items[..|items| - 1]) + if items[|items| - 1].NonEmpty() then 1 else 0
  }

  /** Every item that carries something is there, unpinned, right behind those in front of it that do; and
      nothing else is. */
  lemma {:induction false} CarryingAt(items: seq<Task>, i: nat)
    ensures |Carrying(items)| == CarryingCount(items)
    ensures i < |items| && items[i].NonEmpty() ==>
      && CarryingCount(items[..i]) < |Carrying(items)|
      && Carrying(items)[CarryingCount(items[..i])] == Task(items[i].fiber, items[i].cb, None)
  {
    if items != [] {
      var front := items[..|items| - 1];
      CarryingAt(front, i);
      if i < |front| {
        assert front[..i] == items[..i];
      }
    }
  }

  class Scheduler {
    var queue: seq<Task>
    var active: int
    var idle: int
    /** Every fiber there is; a task names its fiber by the place in this list. */
    var fibers: seq<Fiber>

    ghost predicate Valid()
      reads this`queue, this`fibers
    {
      && (forall t :: t in queue ==> t.NonEmpty() && Known(t))
      && forall i, j :: 0 <= i < j < |fibers| ==> fibers[i] != fibers[j]
    }

    ghost predicate Known(t: Task)
      reads this`fibers
    {
      t.fiber.Some? ==> t.fiber.value < |fibers|
    }

    /** The fibers' states, as Runtime sees them. */
    ghost function States(): (r: seq<R.Fiber>)
      reads this, fibers
      ensures |r| == |fibers|
    {
      seq(|fibers|, i requires 0 <= i < |fibers| reads this, fibers => R.Fiber(fibers[i].state, false, None, None))
    }

    /** scheduleNonLock: whether the queue was empty; empty tasks are dropped. */
    method ScheduleNonLock(t: Task) returns (tickle: bool)
      modifies this`queue
      ensures queue == Enqueue(old(queue), t) && tickle == (old(queue) == [])
    {
      tickle := queue == [];
      if t.cb.Some? || t.fiber.Some? {
        queue := queue + [t];
      }
    }

    /** schedule over a range: every item is swapped out of the caller's container into an unpinned task. */
    method ScheduleRange(items: array<Task>) returns (tickle: bool)
      modifies this`queue, items
      ensures queue == old(queue) + Carrying(old(items[..]))
      ensures tickle == (old(queue) == [] && items.Length > 0)
      ensures forall k :: 0 <= k < items.Length ==> !items[k].NonEmpty()
    {
      tickle := false;
      var begin: nat := 0;
      ghost var was := items[..];
      assert was[..0] == [];
      while begin != items.Length
        invariant begin <= items.Length
        invariant queue == old(queue) + Carrying(was[..begin])
        invariant tickle == (old(queue) == [] && begin > 0)
        invariant forall k :: 0 <= k < begin ==> !items[k].NonEmpty()
        invariant forall k :: begin <= k < items.Length ==> items[k] == was[k]
        decreases items.Length - begin
      {
        var item := items[begin].(thread := None);
        items[begin] := items[begin].(fiber := None, cb := None);
        var empty := ScheduleNonLock(item);
        assert was[..begin + 1][..begin] == was[..begin];
        tickle := tickle || empty;
        begin := begin + 1;
      }
      assert was[..items.Length] == was;
    }

    /** The pick loop of thread `id`: the first entry that is not pinned elsewhere and whose fiber is not still
        executing. The result is whether another thread should be told. */
    method Pick(id: nat) returns (picked: Option<Task>, tickle: bool)
      requires Valid()
      modifies this`queue, this`active
      ensures Valid()
      ensures var i := R.FirstEligible(old(queue), States(), id);
        if i < |old(queue)| then
          && picked == Some(old(queue)[i]) && queue == old(queue)[..i] + old(queue)[i + 1..] && active == old(active) + 1
          && picked.value.NonEmpty() && Known(picked.value)
          && (picked.value.thread.None? || picked.value.thread == Some(id))
          && (picked.value.fiber.Some? ==> fibers[picked.value.fiber.value].state != R.EXEC)
        else picked == None && queue == old(queue) && active == old(active) && tickle
      ensures picked.Some? ==>
        (tickle <==> exists k :: 0 <= k < R.FirstEligible(old(queue), States(), id) && PinnedElsewhere(old(queue)[k], id))
    {
      picked, tickle := None, false;
      var it: nat := 0;
      while it != |queue|
        invariant it <= |queue|
        invariant forall k :: 0 <= k < it ==> !R.Eligible(States(), id, queue[k])
        invariant tickle <==> exists k :: 0 <= k < it && PinnedElsewhere(queue[k], id)
        decreases |queue| - it
      {
        var t := queue[it];
        assert t in queue;
        if t.thread.Some? && t.thread != Some(id) {
          tickle := true;
          it := it + 1;
          continue;
        }
        if t.fiber.Some? && fibers[t.fiber.value].state == R.EXEC {
          it := it + 1;
          continue;
        }
        FirstIs(queue, States(), id, it);
        picked := Some(t);
        queue := queue[..it] + queue[it + 1..];
        active := active + 1;
        return;
      }
      FirstIs(queue, States(), id, it);
      tickle := true;
    }

    static predicate PinnedElsewhere(t: Task, id: nat) {
      t.thread.Some? && t.thread != Some(id)
    }

    static lemma FirstIs(queue: seq<Task>, states: seq<R.Fiber>, id: nat, i: nat)
      requires i <= |queue| && (forall k :: 0 <= k < i ==> !R.Eligible(states, id, queue[k]))
      requires i < |queue| ==> R.Eligible(states, id, queue[i])
      ensures R.FirstEligible(queue, states, id) == i
    {
      var j := R.FirstEligible(queue, states, id);
    }
  }

  /** Where a thread stands in run(): at the top of the loop, with a task (or nothing) in hand, inside a fiber,
      or past the loop. `Switched` names the branch that made the switch. */
  datatype Branch = TaskFiber(f: nat) | CbFiber(f: nat) | IdleFiber
  datatype Phase = Head | InHand | Switched(branch: Branch) | Left
  {
    predicate Runs(k: nat) {
      Switched? && !branch.IdleFiber? && branch.f == k
    }
  }

  class Runner {
    const id: nat
    const sched: Scheduler
    const idleFiber: Fiber
    /** run()'s locals. */
    var cbFiber: Option<nat>
    var ft: Task
    var isActive: bool
    var phase: Phase

    constructor (id: nat, sched: Scheduler)
      ensures phase == Head && AtHead() && this.sched == sched && this.id == id && fresh(idleFiber)
    {
      this.id, this.sched, cbFiber, phase := id, sched, None, Head;
      ft, isActive := Task(None, None, None), false;
      idleFiber := new Fiber(None);
    }

    /** What holds at the top of the loop: the callback fiber kept for reuse, if any, is fresh, and the idle fiber
        is not executing. */
    ghost predicate AtHead()
      reads this`cbFiber, sched`fibers, sched.fibers, idleFiber
    {
      && (cbFiber.Some? ==> cbFiber.value < |sched.fibers| && sched.fibers[cbFiber.value].state == R.INIT)
      && idleFiber.state != R.EXEC && idleFiber !in sched.fibers
    }

    /** scheduler.cpp:203-230: clear the locals and pick. */
    method PickTask() returns (tickle: bool)
      requires phase == Head && AtHead() && sched.Valid()
      modifies this`ft, this`isActive, this`phase, sched`queue, sched`active
      ensures phase == InHand && AtHead() && sched.Valid() && sched.Known(ft)
      ensures isActive == ft.NonEmpty() && sched.active == old(sched.active) + (if isActive then 1 else 0)
      ensures isActive ==> (ft.thread.None? || ft.thread == Some(id))
      ensures ft.fiber.Some? ==> sched.fibers[ft.fiber.value].state != R.EXEC
      ensures var i := R.FirstEligible(old(sched.queue), sched.States(), id);
        if i < |old(sched.queue)| then
          ft == old(sched.queue)[i] && isActive && sched.queue == old(sched.queue)[..i] + old(sched.queue)[i + 1..]
        else !isActive && sched.queue == old(sched.queue)
    {
      var picked;
      picked, tickle := sched.Pick(id);
      ft, isActive := Task(None, None, None), picked.Some?;
      if picked.Some? {
        ft := picked.value;
      }
      phase := InHand;
    }

    predicate Finished(s: R.FState) {
      s == R.TERM || s == R.EXCEPT
    }

    /** The state in which run leaves a fiber that came back in state `s`. */
    function Settled(s: R.FState): R.FState {
      if s == R.READY || Finished(s) then s else R.HOLD
    }

    /** The callback fiber, made or reused, with the task's callback in it: scheduler.cpp:251-255. */
    method PrepareCb() returns (g: nat)
      requires AtHead() && sched.Valid() && ft.cb.Some?
      modifies this`cbFiber, sched`fibers, sched.fibers
      ensures sched.Valid() && AtHead() && cbFiber == Some(g) && sched.fibers[g].cb == ft.cb
      ensures old(sched.fibers) <= sched.fibers
      ensures if old(cbFiber).Some? then sched.fibers == old(sched.fibers) && g == old(cbFiber).value
        else |sched.fibers| == |old(sched.fibers)| + 1 && g == |old(sched.fibers)| && fresh(sched.fibers[g])
      ensures forall k :: 0 <= k < |old(sched.fibers)| && k != g ==> unchanged(sched.fibers[k])
    {
      if cbFiber.Some? {
        g := cbFiber.value;
        sched.fibers[g].Reset(ft.cb);
      } else {
        g := |sched.fibers|;
        var fiber := new Fiber(ft.cb);
        sched.fibers := sched.fibers + [fiber];
        cbFiber := Some(g);
      }
    }

    /** From scheduler.cpp:236 to the switch. A task's fiber must not have started elsewhere since it was picked; that no
        other thread can have it is RuntimeRuns.NoFiberTwice. */
    method SwitchIn()
      requires phase == InHand && AtHead() && sched.Valid() && sched.Known(ft) && isActive == ft.NonEmpty()
      requires ft.fiber.Some? ==> sched.fibers[ft.fiber.value].state != R.EXEC && cbFiber != ft.fiber
      modifies this`cbFiber, this`phase, sched`fibers, sched`active, sched`idle, sched.fibers, idleFiber
      ensures sched.Valid() && old(sched.fibers) <= sched.fibers && idleFiber !in sched.fibers
      ensures forall k :: |old(sched.fibers)| <= k < |sched.fibers| ==> fresh(sched.fibers[k])
      ensures if phase.Switched? && phase.branch.CbFiber? && old(cbFiber).None?
        then |sched.fibers| == |old(sched.fibers)| + 1 && cbFiber == Some(|old(sched.fibers)|)
        else sched.fibers == old(sched.fibers) && cbFiber == old(cbFiber)
      ensures !(phase.Switched? && phase.branch.IdleFiber?) ==> idleFiber.state == old(idleFiber.state)
      ensures forall k :: 0 <= k < |old(sched.fibers)| && !phase.Runs(k) ==> unchanged(sched.fibers[k])
      ensures
        if ft.fiber.Some? && !Finished(old(sched.fibers[ft.fiber.value].state)) then
          && phase == Switched(TaskFiber(ft.fiber.value)) && sched.fibers[ft.fiber.value].state == R.EXEC
          && sched.fibers[ft.fiber.value].cb == old(sched.fibers[ft.fiber.value].cb)
          && AtHead() && sched.active == old(sched.active) && sched.idle == old(sched.idle)
        else if ft.cb.Some? then
          && cbFiber.Some? && phase == Switched(CbFiber(cbFiber.value)) && cbFiber.value < |sched.fibers|
          && sched.fibers[cbFiber.value].state == R.EXEC && sched.fibers[cbFiber.value].cb == ft.cb
          && idleFiber.state != R.EXEC && sched.active == old(sched.active) && sched.idle == old(sched.idle)
        else if isActive then
          // a fiber task whose fiber has ended already
          phase == Head && AtHead() && sched.active == old(sched.active) - 1 && sched.idle == old(sched.idle)
        else if old(idleFiber.state) == R.TERM then
          phase == Left && AtHead() && sched.active == old(sched.active) && sched.idle == old(sched.idle)
        else
          && phase == Switched(IdleFiber) && idleFiber.state == R.EXEC && sched.idle == old(sched.idle) + 1
          && (cbFiber.Some? ==> cbFiber.value < |sched.fibers| && sched.fibers[cbFiber.value].state == R.INIT)
          && sched.active == old(sched.active)
    {
      if ft.fiber.Some? && !Finished(sched.fibers[ft.fiber.value].state) {
        sched.fibers[ft.fiber.value].SwapIn();
        phase := Switched(TaskFiber(ft.fiber.value));
      } else if ft.cb.Some? {
        var g := PrepareCb();
        sched.fibers[g].SwapIn();
        phase := Switched(CbFiber(g));
      } else if isActive {
        sched.active := sched.active - 1;
        phase := Head;
      } else if idleFiber.state == R.TERM {
        phase := Left;
      } else {
        sched.idle := sched.idle + 1;
        idleFiber.SwapIn();
        phase := Switched(IdleFiber);
      }
    }

    /** Whoever was switched to. */
    ghost predicate CameBack()
      reads this, sched`fibers, sched.fibers, idleFiber
    {
      match phase
      case Switched(TaskFiber(f)) => f < |sched.fibers| && sched.fibers[f].state != R.EXEC && AtHead() && cbFiber != Some(f)
      case Switched(CbFiber(g)) =>
        && g < |sched.fibers| && sched.fibers[g].state != R.EXEC && cbFiber == Some(g)
        && idleFiber.state != R.EXEC && idleFiber !in sched.fibers
      case Switched(IdleFiber) => idleFiber.state != R.EXEC && AtHead()
      case _ => false
    }

    /** A fiber that came back without having ended is on hold; one that asked to go on is scheduled again. */
    method Settle(f: nat, thread: Option<nat>) returns (again: bool)
      requires sched.Valid() && f < |sched.fibers|
      modifies sched`active, sched`queue, sched.fibers[f]
      ensures sched.Valid() && sched.active == old(sched.active) - 1
      ensures again == (old(sched.fibers[f].state) == R.READY)
      ensures sched.queue == old(sched.queue) + if again then [Task(Some(f), None, thread)] else []
      ensures sched.fibers[f].state == Settled(old(sched.fibers[f].state)) && sched.fibers[f].cb == old(sched.fibers[f].cb)
    {
      sched.active := sched.active - 1;
      again := sched.fibers[f].state == R.READY;
      if again {
        var tickle := sched.ScheduleNonLock(Task(Some(f), None, thread));
      } else if !Finished(sched.fibers[f].state) {
        sched.fibers[f].state := R.HOLD;
      }
    }

    /** From the return of the switch to the end of the loop body, whatever the fiber did. */
    method SwitchBack()
      requires CameBack() && sched.Valid()
      modifies this`cbFiber, this`phase, sched`queue, sched`active, sched`idle, sched.fibers, idleFiber
      ensures phase == Head && AtHead() && sched.Valid() && sched.fibers == old(sched.fibers)
      ensures match old(phase.branch) {
        case TaskFiber(f) =>
          && sched.active == old(sched.active) - 1 && sched.idle == old(sched.idle) && cbFiber == old(cbFiber)
          && sched.queue == old(sched.queue) + (if old(sched.fibers[f].state) == R.READY then [Task(Some(f), None, ft.thread)] else [])
          && sched.fibers[f].state == Settled(old(sched.fibers[f].state)) && sched.fibers[f].cb == old(sched.fibers[f].cb)
        case CbFiber(g) =>
          && sched.active == old(sched.active) - 1 && sched.idle == old(sched.idle)
          && cbFiber == (if Finished(old(sched.fibers[g].state)) then Some(g) else None)
          && sched.queue == old(sched.queue) + (if old(sched.fibers[g].state) == R.READY then [Task(Some(g), None, ft.thread)] else [])
          && (if Finished(old(sched.fibers[g].state)) then sched.fibers[g].state == R.INIT && sched.fibers[g].cb == None
              else sched.fibers[g].state == Settled(old(sched.fibers[g].state)) && sched.fibers[g].cb == old(sched.fibers[g].cb))
        case IdleFiber =>
          && sched.active == old(sched.active) && sched.idle == old(sched.idle) - 1
          && cbFiber == old(cbFiber) && sched.queue == old(sched.queue)
          && idleFiber.state == if Finished(old(idleFiber.state)) then old(idleFiber.state) else R.HOLD
      }
      ensures !old(phase).branch.IdleFiber? ==> idleFiber.state == old(idleFiber.state)
      ensures forall k :: 0 <= k < |sched.fibers| && !old(phase).Runs(k) ==> unchanged(sched.fibers[k])
    {
      match phase {
        case Switched(TaskFiber(f)) =>
          var again := Settle(f, ft.thread);
        case Switched(CbFiber(g)) =>
          var again := Settle(g, ft.thread);
          if again || !Finished(sched.fibers[g].state) {
            cbFiber := None;
          } else {
            sched.fibers[g].Reset(None);
          }
        case Switched(IdleFiber) =>
          sched.idle := sched.idle - 1;
          if !Finished(idleFiber.state) {
            idleFiber.state := R.HOLD;
          }
      }
      phase := Head;
    }

    /** Inside whatever the thread switched to. */
    ghost predicate Inside()
      reads this, sched`fibers, sched.fibers, idleFiber
    {
      idleFiber !in sched.fibers &&
      match phase
      case Switched(TaskFiber(f)) => f < |sched.fibers| && AtHead() && cbFiber != Some(f)
      case Switched(CbFiber(g)) => g < |sched.fibers| && cbFiber == Some(g) && idleFiber.state != R.EXEC
      case Switched(IdleFiber) => cbFiber.Some? ==> cbFiber.value < |sched.fibers| && sched.fibers[cbFiber.value].state == R.INIT
      case _ => false
    }

    /** No queued task names the callback fiber kept for reuse. */
    ghost predicate Private()
      reads this`cbFiber, sched`queue
    {
      forall t :: t in sched.queue ==> cbFiber.None? || t.fiber != cbFiber
    }

    /** The first half of the loop body. */
    method Dispatch()
      requires phase == Head && AtHead() && sched.Valid() && Private()
      modifies this, sched, sched.fibers, idleFiber
      ensures sched.Valid() && Private() && old(sched.fibers) <= sched.fibers
      ensures forall k :: |old(sched.fibers)| <= k < |sched.fibers| ==> fresh(sched.fibers[k])
      ensures if phase.Switched? then Inside() else AtHead() && (phase == Head || phase == Left)
      ensures sched.active == old(sched.active) + if phase.Switched? && !phase.branch.IdleFiber? then 1 else 0
      ensures sched.idle == old(sched.idle) + if phase.Switched? && phase.branch.IdleFiber? then 1 else 0
      ensures phase == Left <==> old(idleFiber.state) == R.TERM && R.FirstEligible(old(sched.queue), old(sched.States()), id) == |old(sched.queue)|
    {
      ghost var queue := sched.queue;
      var tickle := PickTask();
      assert ft.NonEmpty() ==> ft in queue;
      SwitchIn();
    }

    /** The switch returns: whoever ran left its fiber in the state `outcome`. */
    method Resume(outcome: R.FState)
      requires Inside() && outcome != R.EXEC && sched.Valid()
      modifies idleFiber, sched.fibers
      ensures CameBack()
    {
      match phase {
        case Switched(TaskFiber(f)) => sched.fibers[f].state := outcome;
        case Switched(CbFiber(g)) => sched.fibers[g].state := outcome;
        case Switched(IdleFiber) => idleFiber.state := outcome;
      }
    }

    /** One turn of the loop by a thread that has the scheduler to itself; `outcome` is the state in which whatever it
        switches to comes back. Afterwards nothing is held, the counters are as before, and the thread leaves the
        loop exactly when its idle fiber has ended and the queue holds nothing for it. */
    method RunOnce(outcome: R.FState)
      requires phase == Head && AtHead() && sched.Valid() && Private() && outcome != R.EXEC
      modifies this, sched, sched.fibers, idleFiber
      ensures (phase == Head || phase == Left) && AtHead() && sched.Valid() && Private()
      ensures sched.active == old(sched.active) && sched.idle == old(sched.idle)
      ensures phase == Left <==> old(idleFiber.state) == R.TERM && R.FirstEligible(old(sched.queue), old(sched.States()), id) == |old(sched.queue)|
      ensures old(sched.fibers) <= sched.fibers
      ensures forall k :: |old(sched.fibers)| <= k < |sched.fibers| ==> fresh(sched.fibers[k])
    {
      Dispatch();
      if phase.Switched? {
        Resume(outcome);
        SwitchBack();
      }
    }

    /** The whole loop, for any outcomes of the switches, as long as no other thread steps in between: every
        assertion of the fibers holds, and each time round the counters are where they were. */
    method Run(outcomes: seq<R.FState>)
      requires phase == Head && AtHead() && sched.Valid() && Private() && R.EXEC !in outcomes
      modifies this, sched, sched.fibers, idleFiber
      ensures (phase == Head || phase == Left) && AtHead() && sched.Valid() && Private()
      ensures sched.active == old(sched.active) && sched.idle == old(sched.idle)
    {
      var k := 0;
      ghost var mine := sched.fibers;
      while k < |outcomes| && phase == Head
        invariant k <= |outcomes| && (phase == Head || phase == Left) && AtHead() && sched.Valid() && Private()
        invariant sched.active == old(sched.active) && sched.idle == old(sched.idle)
        invariant |mine| <= |sched.fibers| && mine == sched.fibers[..|mine|]
        invariant forall i :: |mine| <= i < |sched.fibers| ==> fresh(sched.fibers[i])
      {
        RunOnce(outcomes[k]);
        k := k + 1;
      }
    }
  }
}
