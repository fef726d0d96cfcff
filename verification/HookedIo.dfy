/** do_io as it is written, for one call: the loop around the system call, the timer it arms, the event it
    registers, the wait and what follows it. What other threads do meanwhile is given as rounds of idle's
    pass; Runtime.dfy has the same call as steps among all the others. */
module HookedIo {
  import opened Prelude
  import opened Tasks
  import opened PollerLaws
  import opened EventPolling
  import opened Timers
  import opened TimerManagement
  import opened HookedCourse

  /** What is registered on a descriptor. */
  function BitsOf(p: P.PollState, fd: nat): P.Mask {
    if fd < |p.ctxs| then p.ctxs[fd].events else P.NONE
  }

  lemma CancelBits(p: P.PollState, fd: nat, ev: P.Event, fails: bool)
    requires P.Inv(p)
    ensures P.CancelEvent(p, fd, ev, fails).Done?
    ensures var q := P.CancelEvent(p, fd, ev, fails).poller;
      P.Inv(q) && |q.ctxs| == |p.ctxs| && BitsOf(q, fd) == if fails then BitsOf(p, fd) else BitsOf(p, fd).Without(ev)
  {
    CancelEventLaw(p, fd, ev, fails, (_: Task) => 0);
    if fd < |p.ctxs| { CancelDelivers(p, fd, ev); }
  }

  lemma ReportBits(p: P.PollState, fd: nat, r: Round, clock: nat, flagged: bool, armed: bool)
    requires P.Inv(p) && fd < |p.ctxs|
    ensures var w := Told(Watch(clock, BitsOf(p, fd), flagged, armed), r);
      match P.Ready(p, fd, r.reported, r.hangup, r.reportFails)
      case Abort(_) => w == Broken(clock)
      case Done(q, _, _) => P.Inv(q) && w == Watch(clock, BitsOf(q, fd), flagged, armed)
  {
    ReadyLaw(p, fd, r.reported, r.hangup, r.reportFails, (_: Task) => 0);
    if r.reportFails || !Stale(p.ctxs[fd], r.reported, r.hangup) {
      ReportDelivers(p, fd, r.reported, r.hangup, r.reportFails);
    }
  }

  lemma AddBits(p: P.PollState, fd: nat, ev: P.Event, fiber: nat, fails: bool)
    requires P.Inv(p)
    ensures fd < |P.Grown(p.ctxs, fd)|
    ensures match P.AddEvent(p, fd, ev, fiber, None, fails)
      case Abort(_) => BitsOf(p, fd).Has(ev)
      case Done(q, ok, _) =>
        && !BitsOf(p, fd).Has(ev) && P.Inv(q) && ok == !fails
        && BitsOf(q, fd) == if fails then BitsOf(p, fd) else BitsOf(p, fd).With(ev)
  {
    AddEventLaw(p, fd, ev, fiber, None, fails, (_: Task) => 0);
    GrownKeeps(p.ctxs, fd, (_: Task) => 0);
  }

  /** Among the callbacks cut off the front of the set, `x` is there exactly if it is in the set and due. */
  lemma CutOff(view: seq<Rec<Option<Closure>>>, cbs: seq<Option<Closure>>, x: Option<Closure>, now: nat, due: nat)
    requires |cbs| <= |view| && forall k :: 0 <= k < |cbs| ==> cbs[k] == view[k].cb && view[k].next <= now
    requires forall k :: |cbs| <= k < |view| ==> view[k].next > now
    requires forall k :: 0 <= k < |view| && view[k].cb == x ==> view[k].next == due
    ensures x in cbs <==> due <= now && exists k :: 0 <= k < |view| && view[k].cb == x
  {
    if due <= now && exists k :: 0 <= k < |view| && view[k].cb == x {
      var k :| 0 <= k < |view| && view[k].cb == x;
      assert cbs[k] == x;
    }
  }

  class HookedCall {
    const fd: nat
    const ev: P.Event
    /** Names this call's deadline checks, and its fiber. */
    const id: nat
    const fiber: nat
    const ep: EventPoller
    const tm: TimerManager<Closure>
    /** timer_info::cancelled, shared with the deadline checks. */
    var cancelled: bool
    var clock: nat

    constructor (fd: nat, ev: P.Event, id: nat, fiber: nat, ep: EventPoller, tm: TimerManager<Closure>, clock: nat)
      ensures !cancelled && this.clock == clock && this.ep == ep && this.tm == tm && this.id == id
    {
      this.fd, this.ev, this.id, this.fiber, this.ep, this.tm := fd, ev, id, fiber, ep, tm;
      cancelled, this.clock := false, clock;
    }

    /** The poller is in a state its operations keep. */
    ghost predicate Sound()
      reads ep, ep.fdContexts
    {
      ep.Shape() && P.Inv(ep.View())
    }

    ghost predicate Valid()
      reads this, ep, ep.fdContexts, tm, tm.known, tm.timers
    {
      Sound() && tm.Valid() && tm.InSync()
    }

    /** A live deadline check of this call. */
    ghost predicate Own(t: Timer<Closure>)
      reads t
    {
      t.cb == Some(Timeout(id))
    }

    /** None is left. */
    ghost predicate NoTimer()
      reads tm, tm.known
    {
      forall t :: t in tm.known ==> !Own(t)
    }

    /** Every live one is `timer` and due at `due`. */
    ghost predicate OnlyTimer(timer: Timer?<Closure>, due: nat)
      reads tm, tm.known
    {
      && (timer != null ==> timer in tm.known)
      && forall t :: t in tm.known && Own(t) ==> t == timer && t.next == due && !t.recurring
    }

    ghost predicate Armed(timer: Timer?<Closure>)
      reads timer
    {
      timer != null && Own(timer)
    }

    /** What is registered on the descriptor. */
    ghost function Bits(): P.Mask
      reads ep, ep.fdContexts
    {
      if fd < |ep.fdContexts| then ep.fdContexts[fd].events else P.NONE
    }

    predicate Registered()
      reads ep, ep.fdContexts
    {
      fd < |ep.fdContexts| && ep.fdContexts[fd].events.Has(ev)
    }

    ghost function Watching(timer: Timer?<Closure>): Watch
      reads this, ep, ep.fdContexts, timer
    {
      Watch(clock, Bits(), cancelled, Armed(timer))
    }

    /** Expired timers are handed out; whether a check of this call was among them: exactly if one was due. */
    method Expire(probe: nat, ghost timer: Timer?<Closure>, ghost due: nat) returns (up: bool)
      requires Valid() && OnlyTimer(timer, due)
      modifies tm`timers, tm.known
      ensures Valid() && OnlyTimer(timer, due)
      ensures up <==> old(Armed(timer)) && due <= clock
      ensures Armed(timer) <==> old(Armed(timer)) && clock < due
    {
      InTheSet(timer, due);
      ghost var view := tm.View();
      var cbs := HandOut(probe, timer, due);
      CutOff(view, cbs, Some(Timeout(id)), clock, due);
      up := Some(Timeout(id)) in cbs;
    }

    /** listExpiredCb: the callbacks of the due timers; a check that was due is no longer live. */
    method HandOut(probe: nat, ghost timer: Timer?<Closure>, ghost due: nat) returns (cbs: seq<Option<Closure>>)
      requires Valid() && OnlyTimer(timer, due)
      modifies tm`timers, tm.known
      ensures Valid() && OnlyTimer(timer, due)
      ensures |cbs| <= |old(tm.View())|
      ensures forall k :: 0 <= k < |cbs| ==> cbs[k] == old(tm.View())[k].cb && old(tm.View())[k].next <= clock
      ensures forall k :: |cbs| <= k < |old(tm.View())| ==> old(tm.View())[k].next > clock
      ensures Armed(timer) <==> old(Armed(timer)) && clock < due
    {
      CutIsExact(tm.View(), clock, probe);
      ghost var before, view := tm.timers, tm.View();
      ghost var k :| old(Armed(timer)) ==> 0 <= k < |before| && before[k] == timer;
      ghost var expired;
      cbs, expired := tm.ListExpiredCb(clock, probe);
      if old(Armed(timer)) && due <= clock { assert view[k].next == due && expired[k] == timer; }
    }

    /** The call's check is live exactly if it is in the set. */
    lemma InTheSet(timer: Timer?<Closure>, due: nat)
      requires Valid() && OnlyTimer(timer, due)
      ensures forall k :: 0 <= k < |tm.View()| && tm.View()[k].cb == Some(Timeout(id)) ==> tm.View()[k].next == due
      ensures Armed(timer) <==> exists k :: 0 <= k < |tm.View()| && tm.View()[k].cb == Some(Timeout(id))
    {
      forall k | 0 <= k < |tm.View()|
        ensures tm.View()[k] == tm.timers[k].View() && tm.timers[k] in tm.known
      {
      }
      if Armed(timer) {
        var k :| 0 <= k < |tm.timers| && tm.timers[k] == timer;
        assert tm.View()[k].cb == Some(Timeout(id));
      }
    }

    /** A check of this call that came up is executed: it does nothing unless the flag is still clear, and else sets it
        and takes the event off the descriptor, unless epoll_ctl refuses. */
    method Check(cancelFails: bool)
      requires Sound()
      modifies this`cancelled, ep, ep.fdContexts
      ensures cancelled && Sound() && ep.fdContexts == old(ep.fdContexts)
      ensures Bits() == if old(cancelled) || cancelFails then old(Bits()) else old(Bits()).Without(ev)
    {
      if !cancelled {
        cancelled := true;
        CancelBits(ep.View(), fd, ev, cancelFails);
        SameBits();
        var ok := ep.CancelEvent(fd, ev, cancelFails);
        SameBits();
      }
    }

    lemma SameBits()
      ensures Bits() == BitsOf(ep.View(), fd)
    {
    }

    /** The first half of a round: time goes by, timers expire, and the call's check is executed if it came up. */
    method Pass(r: Round, ghost timer: Timer?<Closure>, ghost due: nat)
      requires Valid() && OnlyTimer(timer, due)
      modifies this`clock, this`cancelled, tm`timers, tm.known, ep, ep.fdContexts
      ensures Valid() && OnlyTimer(timer, due) && ep.fdContexts == old(ep.fdContexts)
      ensures Watching(timer) == Checked(old(Watching(timer)), ev, due, r)
    {
      clock := clock + r.ms;
      var up := Expire(r.probe, timer, due);
      if up {
        Check(r.cancelFails);
      }
    }

    /** One round: expire, execute the call's check if it came up, handle what epoll reports. */
    method Elapse(r: Round, ghost timer: Timer?<Closure>, ghost due: nat) returns (aborted: bool)
      requires Valid() && OnlyTimer(timer, due)
      modifies this`clock, this`cancelled, tm`timers, tm.known, ep, ep.fdContexts
      ensures OnlyTimer(timer, due) && clock == old(clock) + r.ms && ep.fdContexts == old(ep.fdContexts)
      ensures cancelled ==> old(cancelled) || (timer != null && due <= clock)
      ensures var w := Told(Checked(old(Watching(timer)), ev, due, r), r);
        if aborted then w == Broken(clock) else Valid() && w == Watching(timer)
    {
      Pass(r, timer, due);
      aborted := Report(r, Armed(timer));
    }

    method Report(r: Round, ghost armed: bool) returns (aborted: bool)
      requires Sound()
      modifies ep, ep.fdContexts
      ensures ep.Shape() && ep.fdContexts == old(ep.fdContexts)
      ensures var w := Told(Watch(clock, old(Bits()), cancelled, armed), r);
        if aborted then w == Broken(clock) else Sound() && w == Watch(clock, Bits(), cancelled, armed)
    {
      aborted := false;
      if fd < |ep.fdContexts| {
        ReportBits(ep.View(), fd, r, clock, cancelled, armed);
        SameBits();
        aborted := ep.HandleReport(fd, r.reported, r.hangup, r.reportFails);
        SameBits();
      }
    }

    /** yieldToHold: rounds go by until the event is no longer registered, that is until the fiber was queued. */
    method Park(rounds: seq<Round>, ghost timer: Timer?<Closure>, ghost due: nat) returns (aborted: bool)
      requires Valid() && !cancelled && OnlyTimer(timer, due)
      modifies this`clock, this`cancelled, tm`timers, tm.known, ep, ep.fdContexts
      ensures clock >= old(clock) && OnlyTimer(timer, due)
      ensures ep.fdContexts == old(ep.fdContexts)
      ensures cancelled ==> clock >= due && timer != null
      ensures var w := Parked(old(Watching(timer)), ev, due, rounds);
        if aborted then w == Broken(clock) else Valid() && w == Watching(timer)
    {
      aborted := false;
      var k := 0;
      assert rounds[0..] == rounds;
      while k < |rounds| && Registered() && !aborted
        invariant k <= |rounds| && clock >= old(clock) && OnlyTimer(timer, due)
        invariant ep.fdContexts == old(ep.fdContexts)
        invariant cancelled ==> clock >= due && timer != null
        invariant aborted ==> Parked(old(Watching(timer)), ev, due, rounds) == Broken(clock)
        invariant !aborted ==>
          Valid() && Parked(old(Watching(timer)), ev, due, rounds) == Parked(Watching(timer), ev, due, rounds[k..])
      {
        assert rounds[k..][0] == rounds[k] && rounds[k..][1..] == rounds[k + 1..];
        aborted := Elapse(rounds[k], timer, due);
        k := k + 1;
      }
    }

    /** The timer, when the call has a time limit. */
    method Arm(to: Option<nat>, addr: nat) returns (timer: Timer?<Closure>)
      requires Valid() && NoTimer() && forall t :: t in tm.known ==> t.addr < addr
      modifies tm
      ensures Valid() && (timer == null <==> to.None?) && (Armed(timer) <==> to.Some?)
      ensures if timer == null then tm.known == old(tm.known)
        else fresh(timer) && tm.known == old(tm.known) + {timer} && timer.addr == addr
      ensures OnlyTimer(timer, if to.Some? then clock + to.value else 0)
    {
      timer := null;
      if to.Some? {
        var tickled;
        timer, tickled := tm.AddTimer(to.value, Some(Timeout(id)), false, clock, addr);
      }
    }

    /** timer->cancel(), if there is a timer. */
    method Disarm(timer: Timer?<Closure>, ghost due: nat)
      requires Valid() && OnlyTimer(timer, due)
      modifies tm`timers, if timer != null then {timer} else {}
      ensures Valid() && NoTimer()
    {
      if timer != null {
        var r := tm.Cancel(timer);
      }
    }

    /** addEvent for this call's fiber. */
    method Register(addFails: bool) returns (aborted: bool, rt: int)
      requires Sound()
      modifies ep, ep.fdContexts
      ensures ep.Shape() && old(ep.fdContexts) <= ep.fdContexts
      ensures forall i :: |old(ep.fdContexts)| <= i < |ep.fdContexts| ==> fresh(ep.fdContexts[i])
      ensures aborted <==> old(Registered())
      ensures !aborted ==> Sound() && (rt == 0 <==> !addFails)
      ensures !aborted ==> Bits() == if addFails then old(Bits()) else old(Bits()).With(ev)
    {
      AddBits(ep.View(), fd, ev, fiber, addFails);
      SameBits();
      aborted, rt := ep.AddEvent(fd, ev, fiber, None, addFails);
      SameBits();
    }

    /** The timer and the registration. */
    method Begin(to: Option<nat>, addr: nat, addFails: bool) returns (timer: Timer?<Closure>, aborted: bool, rt: int)
      requires Valid() && !cancelled && NoTimer() && forall t :: t in tm.known ==> t.addr < addr
      modifies tm, ep, ep.fdContexts
      ensures (timer == null <==> to.None?) && (Armed(timer) <==> to.Some?)
      ensures if timer == null then tm.known == old(tm.known)
        else fresh(timer) && tm.known == old(tm.known) + {timer} && timer.addr == addr
      ensures OnlyTimer(timer, if to.Some? then clock + to.value else 0)
      ensures old(ep.fdContexts) <= ep.fdContexts
      ensures forall i :: |old(ep.fdContexts)| <= i < |ep.fdContexts| ==> fresh(ep.fdContexts[i])
      ensures aborted <==> old(Bits()).Has(ev)
      ensures !aborted ==> Valid() && (rt == 0 <==> !addFails) && Bits() == if addFails then old(Bits()) else old(Bits()).With(ev)
    {
      timer := Arm(to, addr);
      aborted, rt := Register(addFails);
    }

    /** One time round do_io's retry loop behind a system call that would block. None means going back to it. */
    method WaitOnce(to: Option<nat>, addr: nat, addFails: bool, rounds: seq<Round>) returns (out: Option<End>)
      requires Valid() && !cancelled && NoTimer() && forall t :: t in tm.known ==> t.addr < addr
      modifies this, tm, tm.known, ep, ep.fdContexts
      ensures clock >= old(clock) && tm.known >= old(tm.known) && fresh(tm.known - old(tm.known))
      ensures old(ep.fdContexts) <= ep.fdContexts
      ensures forall i :: |old(ep.fdContexts)| <= i < |ep.fdContexts| ==> fresh(ep.fdContexts[i])
      ensures out != Some(Aborted) ==> Valid() && forall t :: t in tm.known ==> t.addr <= addr
      ensures out == None || out == Some(TimedOut) || out == Some(Refused) ==> NoTimer()
      ensures out == None ==> !cancelled && !Registered()
      ensures out == Some(TimedOut) ==> cancelled && to.Some? && clock >= old(clock) + to.value
      ensures out == Some(Refused) ==> !cancelled && clock == old(clock)
      ensures var w := WaitFrom(old(clock), old(Bits()), to, ev, addFails, rounds);
        w.end == out && w.clock == clock && (out != Some(Aborted) ==> w.mask == Bits())
    {
      ghost var due := if to.Some? then clock + to.value else 0;
      var timer, aborted, rt := Begin(to, addr, addFails);
      if aborted {
        return Some(Aborted);
      }
      if rt != 0 {
        Disarm(timer, due);
        return Some(Refused);
      }
      out := WaitRegistered(timer, rounds, due);
    }

    /** The wait itself and what follows it. */
    method WaitRegistered(timer: Timer?<Closure>, rounds: seq<Round>, ghost due: nat) returns (out: Option<End>)
      requires Valid() && !cancelled && OnlyTimer(timer, due)
      modifies this`clock, this`cancelled, tm`timers, tm.known, ep, ep.fdContexts
      ensures clock >= old(clock) && ep.fdContexts == old(ep.fdContexts)
      ensures out == None || out == Some(TimedOut) || out == Some(Waiting) || out == Some(Aborted)
      ensures out != Some(Aborted) ==> Valid()
      ensures out == None || out == Some(TimedOut) ==> NoTimer()
      ensures out == None ==> !cancelled && !Registered()
      ensures out == Some(TimedOut) ==> cancelled && timer != null && clock >= due
      ensures match Parked(old(Watching(timer)), ev, due, rounds)
        case Broken(c) => out == Some(Aborted) && clock == c
        case Watch(c, m, flagged, _) =>
          && clock == c && Bits() == m
          && out == if m.Has(ev) then Some(Waiting) else if flagged then Some(TimedOut) else None
    {
      var aborted := Park(rounds, timer, due);
      if aborted {
        return Some(Aborted);
      }
      if Registered() {
        return Some(Waiting);
      }
      Disarm(timer, due);
      out := if cancelled then Some(TimedOut) else None;
    }

    /** do_io behind its tests for hooked sockets, with limit `to`. `answers` are those of the system call in turn, `rounds`
        what happens during each wait, `refusals` the fates of epoll_ctl in addEvent; timers get fresh addresses
        from `addr` on. The call takes the course of CourseFrom. A value comes from the last system call made, and
        only interrupted or blocking ones came before it; ETIMEDOUT comes from a timer of this call, so not before the
        limit has passed; and unless the call is still waiting, it leaves no timer behind. */
    method DoIo(to: Option<nat>, answers: seq<Answer>, rounds: seq<seq<Round>>, refusals: seq<bool>, addr: nat)
      returns (out: End, calls: nat)
      requires Valid() && !cancelled && NoTimer() && forall t :: t in tm.known ==> t.addr < addr
      requires |rounds| == |refusals| == |answers|
      modifies this, tm, tm.known, ep, ep.fdContexts
      ensures calls <= |answers| && clock >= old(clock)
      ensures Course(out, calls, clock) == CourseFrom(0, old(clock), old(Bits()), to, ev, answers, rounds, refusals)
      ensures out.Returned? ==> calls > 0 && answers[calls - 1] == Value(out.n) && !cancelled
      ensures forall k :: 0 <= k < calls && (k < calls - 1 || !out.Returned?) ==> !answers[k].Value?
      ensures out.TimedOut? ==> cancelled && to.Some? && clock >= old(clock) + to.value
      ensures out.TimedOut? || out.Refused? ==> calls > 0 && answers[calls - 1].WouldBlock?
      ensures out.Returned? || out.TimedOut? || out.Refused? ==> Valid() && NoTimer()
    {
      calls := 0;
      var next := addr;
      ghost var course := CourseFrom(0, clock, Bits(), to, ev, answers, rounds, refusals);
      while calls < |answers|
        invariant calls <= |answers| && clock >= old(clock) && next >= addr
        invariant Valid() && !cancelled && NoTimer() && forall t :: t in tm.known ==> t.addr < next
        invariant course == CourseFrom(calls, clock, Bits(), to, ev, answers, rounds, refusals)
        invariant forall k :: 0 <= k < calls ==> !answers[k].Value?
        invariant tm.known >= old(tm.known) && fresh(tm.known - old(tm.known))
        invariant old(ep.fdContexts) <= ep.fdContexts
        invariant forall i :: |old(ep.fdContexts)| <= i < |ep.fdContexts| ==> fresh(ep.fdContexts[i])
      {
        var answer := answers[calls];
        calls := calls + 1;
        match answer
        case Value(n) => return Returned(n), calls;
        case Interrupted =>
        case WouldBlock =>
          var end := WaitOnce(to, next, refusals[calls - 1], rounds[calls - 1]);
          next := next + 1;
          if end.Some? {
            return end.value, calls;
          }
      }
      out := Waiting;
    }
  }
}
