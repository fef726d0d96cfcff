/** Every step of the runtime keeps every invariant. */
module RuntimeSteps {
  import opened Prelude
  import opened Tasks
  import opened Runtime
  import opened RuntimeInv

  // -------------------------------------------------------- frames for the components

  /** Calls keep their identity and never forget that a timer of theirs was handed out. */
  ghost predicate Grows(a: seq<Call>, b: seq<Call>) {
    && |a| <= |b|
    && forall k :: 0 <= k < |a| ==> b[k].entry == a[k].entry && b[k].timeout == a[k].timeout && (a[k].expired ==> b[k].expired)
  }

  lemma GrowsKeeps(s: State, calls: seq<Call>)
    requires Shape(s) && Grows(s.calls, calls)
    ensures QueueOk(s.queue, calls) && HandsOk(s.threads, calls) && TimersOk(s.timers, calls, s.addrs)
  {
  }

  /** Thread `t` and one of its own fibers change together. */
  lemma OwnUpdate(fibers: seq<Fiber>, threads: seq<Thread>, t: nat, th: Thread, f: nat, fb: Fiber)
    requires Own(fibers, threads) && t < |threads| && f < |fibers|
    requires fibers[f].owner.None? || fibers[f].owner == Some(t)
    requires ThreadOk(fibers[f := fb], th, t) && FiberOk(fb, f, threads[t := th])
    requires forall g :: 0 <= g < |fibers| && g != f && fibers[g].owner == Some(t) ==> Has(th, g)
    ensures Own(fibers[f := fb], threads[t := th])
  {
    var fibers', threads' := fibers[f := fb], threads[t := th];
    forall u | 0 <= u < |threads'|
      ensures ThreadOk(fibers', threads'[u], u)
    {
      if u != t { assert ThreadOk(fibers, threads[u], u); }
    }
    forall g | 0 <= g < |fibers'|
      ensures FiberOk(fibers'[g], g, threads')
    {
      if g != f { assert FiberOk(fibers[g], g, threads); }
    }
  }

  /** Only a thread changes, and it keeps the fibers it has. */
  lemma OwnThread(fibers: seq<Fiber>, threads: seq<Thread>, t: nat, th: Thread)
    requires Own(fibers, threads) && t < |threads|
    requires ThreadOk(fibers, th, t)
    requires forall g :: 0 <= g < |fibers| && fibers[g].owner == Some(t) ==> Has(th, g)
    ensures Own(fibers, threads[t := th])
  {
    var threads' := threads[t := th];
    forall g | 0 <= g < |fibers|
      ensures FiberOk(fibers[g], g, threads')
    {
      assert FiberOk(fibers[g], g, threads);
    }
  }

  /** A new fiber that nobody owns yet. */
  lemma OwnAppend(fibers: seq<Fiber>, threads: seq<Thread>)
    requires Own(fibers, threads)
    ensures Own(fibers + [Fiber(INIT, false, None, None)], threads)
  {
    var fibers' := fibers + [Fiber(INIT, false, None, None)];
    forall t | 0 <= t < |threads|
      ensures ThreadOk(fibers', threads[t], t)
    {
      assert ThreadOk(fibers, threads[t], t);
    }
    forall f | 0 <= f < |fibers'|
      ensures FiberOk(fibers'[f], f, threads)
    {
      if f < |fibers| { assert FiberOk(fibers[f], f, threads); }
    }
  }

  /** A fiber with a token exists and is waiting for it. */
  lemma TokenMeansWaiting(s: State, i: nat)
    requires Linear(s) && i < |s.queue| && s.queue[i].fiber.Some?
    ensures var f := s.queue[i].fiber.value; f < |s.fibers| && Need(s.fibers[f]) == 1
  {
    var f := s.queue[i].fiber.value;
    TotalRemove(s.queue, i, TaskTok(f));
    assert Tokens(s, f) == Due(s.fibers, f);
  }

  lemma HandsUpdate(threads: seq<Thread>, calls: seq<Call>, t: nat, th: Thread)
    requires HandsOk(threads, calls) && t < |threads| && InHand(th, t, calls)
    ensures HandsOk(threads[t := th], calls)
  {
  }

  // ----------------------------------------------------------------------------- Pick

  lemma PickShape(s: State, t: nat)
    requires RuntimeOk(s) && Enabled(s, Pick(t))
    ensures Step(s, Pick(t)).Ok? && Shape(Step(s, Pick(t)).state)
  {
    var th := s.threads[t];
    assert ThreadOk(s.fibers, th, t);
    var i := FirstEligible(s.queue, s.fibers, t);
    if i < |s.queue| {
      var task := s.queue[i];
      assert TaskOk(task, s.calls);
      var q := s.queue[..i] + s.queue[i + 1..];
      assert forall k :: 0 <= k < |q| ==> q[k] == s.queue[if k < i then k else k + 1];
      var th' := th.(held := Picked(task));
      HandsUpdate(s.threads, s.calls, t, th');
      if task.fiber.Some? {
        TokenMeansWaiting(s, i);
        var f := task.fiber.value;
        assert FiberOk(s.fibers[f], f, s.threads);
        OwnUpdate(s.fibers, s.threads, t, th', f, s.fibers[f].(owner := Some(t)));
      } else {
        OwnThread(s.fibers, s.threads, t, th');
      }
    } else if th.idle == TERM {
      OwnThread(s.fibers, s.threads, t, th.(running := false));
      HandsUpdate(s.threads, s.calls, t, th.(running := false));
    } else {
      var th' := th.(held := RunIdle([]), idle := EXEC);
      OwnThread(s.fibers, s.threads, t, th');
      HandsUpdate(s.threads, s.calls, t, th');
    }
  }

  /** What a pick does to the tokens of `f` in the queue and in the hands. */
  lemma PickTokens(queue: seq<Task>, threads: seq<Thread>, i: nat, t: nat, f: nat)
    requires i < |queue| && t < |threads| && threads[t].held == Nothing
    ensures Total(queue[..i] + queue[i + 1..], TaskTok(f)) + TaskTok(f)(queue[i]) == Total(queue, TaskTok(f))
    ensures Total(threads[t := threads[t].(held := Picked(queue[i]))], ThreadTok(f))
      == Total(threads, ThreadTok(f)) + if queue[i].cb == Some(Wake(f)) then 1 else 0
  {
    TotalRemove(queue, i, TaskTok(f));
    TotalUpdate(threads, t, threads[t].(held := Picked(queue[i])), ThreadTok(f));
  }

  lemma PickedLinear(s: State, t: nat, f: nat)
    requires RuntimeOk(s) && Enabled(s, Pick(t)) && FirstEligible(s.queue, s.fibers, t) < |s.queue|
    ensures Step(s, Pick(t)).Ok? && Tokens(Step(s, Pick(t)).state, f) == Due(Step(s, Pick(t)).state.fibers, f)
    ensures var task := s.queue[FirstEligible(s.queue, s.fibers, t)];
      Total(s.queue, TaskTok(f)) == Total(Step(s, Pick(t)).state.queue, TaskTok(f)) + TaskTok(f)(task)
  {
    var i := FirstEligible(s.queue, s.fibers, t);
    var task := s.queue[i];
    assert Tokens(s, f) == Due(s.fibers, f);
    assert TaskOk(task, s.calls);
    PickTokens(s.queue, s.threads, i, t, f);
    if task.fiber.Some? {
      TokenMeansWaiting(s, i);
    }
  }

  /** The picked entry's tokens leave the queue, and every fiber still has as many as it needs. */
  lemma PickLinear(s: State, t: nat, f: nat)
    requires RuntimeOk(s) && Enabled(s, Pick(t)) && Step(s, Pick(t)).Ok?
    ensures var s' := Step(s, Pick(t)).state; Tokens(s', f) == Due(s'.fibers, f)
    ensures var i := FirstEligible(s.queue, s.fibers, t);
      Total(s.queue, TaskTok(f)) == Total(Step(s, Pick(t)).state.queue, TaskTok(f)) + if i < |s.queue| then TaskTok(f)(s.queue[i]) else 0
  {
    var th := s.threads[t];
    assert Tokens(s, f) == Due(s.fibers, f);
    if FirstEligible(s.queue, s.fibers, t) < |s.queue| {
      PickedLinear(s, t, f);
    } else if th.idle == TERM {
      TotalUpdate(s.threads, t, th.(running := false), ThreadTok(f));
    } else {
      TotalUpdate(s.threads, t, th.(held := RunIdle([]), idle := EXEC), ThreadTok(f));
    }
  }

  // ---------------------------------------------------------------------------- Enter

  /** The other fibers of a thread stay its own. */
  lemma OthersStay(s: State, t: nat, th: Thread, f: nat)
    requires Own(s.fibers, s.threads) && t < |s.threads|
    requires forall g: nat :: g != f && Has(s.threads[t], g) ==> Has(th, g)
    ensures forall g :: 0 <= g < |s.fibers| && g != f && s.fibers[g].owner == Some(t) ==> Has(th, g)
  {
    forall g | 0 <= g < |s.fibers| && g != f && s.fibers[g].owner == Some(t)
      ensures Has(th, g)
    {
      assert FiberOk(s.fibers[g], g, s.threads);
    }
  }

  lemma EnterFiber(s: State, t: nat)
    requires RuntimeOk(s) && Enabled(s, Enter(t)) && s.threads[t].held.task.fiber.Some?
    ensures DoEnter(s, t).Ok? && Shape(DoEnter(s, t).state)
  {
    var th := s.threads[t];
    var task := th.held.task;
    assert ThreadOk(s.fibers, th, t) && InHand(th, t, s.calls);
    var f := task.fiber.value;
    var th' := th.(held := RunFiber(f, task));
    HandsUpdate(s.threads, s.calls, t, th');
    OthersStay(s, t, th', f);
    OwnUpdate(s.fibers, s.threads, t, th', f, s.fibers[f].(state := EXEC));
  }

  lemma EnterReused(s: State, t: nat)
    requires RuntimeOk(s) && Enabled(s, Enter(t)) && s.threads[t].held.task.fiber.None? && s.threads[t].cbFiber.Some?
    ensures DoEnter(s, t).Ok? && Shape(DoEnter(s, t).state)
  {
    var th := s.threads[t];
    var task := th.held.task;
    assert ThreadOk(s.fibers, th, t) && InHand(th, t, s.calls);
    var g := th.cbFiber.value;
    var th' := th.(held := RunCb(g, task, FirstTodo(task.cb.value)));
    HandsUpdate(s.threads, s.calls, t, th');
    OthersStay(s, t, th', g);
    OwnUpdate(s.fibers, s.threads, t, th', g, s.fibers[g].(state := EXEC));
  }

  lemma EnterNew(s: State, t: nat)
    requires RuntimeOk(s) && Enabled(s, Enter(t)) && s.threads[t].held.task.fiber.None? && s.threads[t].cbFiber.None?
    ensures DoEnter(s, t).Ok? && Shape(DoEnter(s, t).state)
  {
    var th := s.threads[t];
    var task := th.held.task;
    assert ThreadOk(s.fibers, th, t) && InHand(th, t, s.calls);
    var g := |s.fibers|;
    var th' := th.(held := RunCb(g, task, FirstTodo(task.cb.value)), cbFiber := Some(g));
    var fibers := s.fibers + [Fiber(INIT, false, None, None)];
    OwnAppend(s.fibers, s.threads);
    OthersStay(s, t, th', g);
    HandsUpdate(s.threads, s.calls, t, th');
    OwnUpdate(fibers, s.threads, t, th', g, Fiber(EXEC, false, None, Some(t)));
    assert fibers[g := Fiber(EXEC, false, None, Some(t))] == s.fibers + [Fiber(EXEC, false, None, Some(t))];
  }

  lemma EnterShape(s: State, t: nat)
    requires RuntimeOk(s) && Enabled(s, Enter(t))
    ensures Step(s, Enter(t)).Ok? && Shape(Step(s, Enter(t)).state)
  {
    if s.threads[t].held.task.fiber.Some? {
      EnterFiber(s, t);
    } else if s.threads[t].cbFiber.Some? {
      EnterReused(s, t);
    } else {
      EnterNew(s, t);
    }
  }

  /** What the thread holds next, and that no fiber's need changes. */
  lemma EnterHolds(s: State, t: nat, f: nat)
    requires RuntimeOk(s) && Enabled(s, Enter(t)) && Step(s, Enter(t)).Ok?
    ensures var s' := Step(s, Enter(t)).state;
      && s'.threads == s.threads[t := s'.threads[t]]
      && ThreadTok(f)(s'.threads[t]) == ThreadTok(f)(s.threads[t])
      && Due(s'.fibers, f) == Due(s.fibers, f)
  {
    assert ThreadOk(s.fibers, s.threads[t], t) && InHand(s.threads[t], t, s.calls);
  }

  /** A thread that only changes what it has in hand. */
  lemma HandTokens(s: State, s': State, t: nat, f: nat)
    requires t < |s.threads| && |s'.threads| == |s.threads| && s'.threads == s.threads[t := s'.threads[t]]
    requires s'.queue == s.queue && s'.poll == s.poll && s'.timers == s.timers
    ensures Tokens(s', f) + HandTok(s.threads[t].held, f) == Tokens(s, f) + HandTok(s'.threads[t].held, f)
  {
    TotalUpdate(s.threads, t, s'.threads[t], ThreadTok(f));
  }

  lemma EnterLinear(s: State, t: nat, f: nat)
    requires RuntimeOk(s) && Enabled(s, Enter(t)) && Step(s, Enter(t)).Ok?
    ensures var s' := Step(s, Enter(t)).state; Tokens(s', f) == Due(s'.fibers, f)
  {
    EnterHolds(s, t, f);
    assert Tokens(s, f) == Due(s.fibers, f);
    HandTokens(s, Step(s, Enter(t)).state, t, f);
  }

  // --------------------------------------------------------------------- Yield, Finish

  lemma YieldShape(s: State, t: nat)
    requires RuntimeOk(s) && Enabled(s, Yield(t))
    ensures Step(s, Yield(t)).Ok? && Shape(Step(s, Yield(t)).state)
    ensures var s' := Step(s, Yield(t)).state;
      && s'.fibers == s.fibers[Running(s, t) := s.fibers[Running(s, t)].(state := HOLD, armed := false, owner := None)]
      && s'.threads[t].held == Nothing && s'.threads[t].cbFiber != Some(Running(s, t))
  {
    var th := s.threads[t];
    var f := Running(s, t);
    assert ThreadOk(s.fibers, th, t);
    var th' := th.(held := Nothing, cbFiber := if th.held.RunCb? then None else th.cbFiber);
    forall g | 0 <= g < |s.fibers| && g != f && s.fibers[g].owner == Some(t)
      ensures Has(th', g)
    {
      assert FiberOk(s.fibers[g], g, s.threads);
    }
    HandsUpdate(s.threads, s.calls, t, th');
    OwnUpdate(s.fibers, s.threads, t, th', f, s.fibers[f].(state := HOLD, armed := false, owner := None));
  }

  lemma YieldLinear(s: State, t: nat, f: nat)
    requires RuntimeOk(s) && Enabled(s, Yield(t)) && Step(s, Yield(t)).Ok?
    ensures var s' := Step(s, Yield(t)).state; Tokens(s', f) == Due(s'.fibers, f)
  {
    var s' := Step(s, Yield(t)).state;
    assert Tokens(s, f) == Due(s.fibers, f);
    assert ThreadOk(s.fibers, s.threads[t], t);
    HandTokens(s, s', t, f);
  }

  lemma FinishShape(s: State, t: nat, threw: bool)
    requires RuntimeOk(s) && Enabled(s, Finish(t, threw))
    ensures Step(s, Finish(t, threw)).Ok? && Shape(Step(s, Finish(t, threw)).state)
  {
    var th := s.threads[t];
    var f := Running(s, t);
    assert ThreadOk(s.fibers, th, t);
    var s' := Step(s, Finish(t, threw)).state;
    var th' := th.(held := Nothing);
    forall g | 0 <= g < |s.fibers| && g != f && s.fibers[g].owner == Some(t)
      ensures Has(th', g)
    {
      assert FiberOk(s.fibers[g], g, s.threads);
    }
    HandsUpdate(s.threads, s.calls, t, th');
    OwnUpdate(s.fibers, s.threads, t, th', f, s'.fibers[f]);
  }

  lemma FinishLinear(s: State, t: nat, threw: bool, f: nat)
    requires RuntimeOk(s) && Enabled(s, Finish(t, threw)) && Step(s, Finish(t, threw)).Ok?
    ensures var s' := Step(s, Finish(t, threw)).state; Tokens(s', f) == Due(s'.fibers, f)
  {
    var s' := Step(s, Finish(t, threw)).state;
    assert Tokens(s, f) == Due(s.fibers, f);
    assert ThreadOk(s.fibers, s.threads[t], t);
    HandTokens(s, s', t, f);
  }
}
