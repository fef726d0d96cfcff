/** What becomes of a hooked call, told without timers, contexts or a queue: a clock, the events registered on the
    descriptor, the flag, and whether the call's deadline check is still to come. HookedIo.dfy proves that do_io on
    the poller and the timer set takes exactly this course. */
module HookedCourse {
  import opened Prelude
  import opened Poller

  /** What one execution of the system call answers. */
  datatype Answer = Value(n: int) | Interrupted | WouldBlock

  /** What happens in one pass of another thread: `ms` go by, expired timers are handed out (`probe` is the address of
      listExpiredCb's temporary timer), and epoll reports something about the call's descriptor. `cancelFails` and
      `reportFails` are the fates of the epoll_ctl calls that follow. */
  datatype Round = Round(ms: nat, probe: nat, cancelFails: bool, reported: Mask, hangup: bool, reportFails: bool)

  /** How a call ends; Waiting if the script ends first, Aborted on a failed assertion. */
  datatype End = Returned(n: int) | TimedOut | Refused | Waiting | Aborted

  /** A wait in progress, or one that a failed assertion broke off. */
  datatype Watch = Watch(clock: nat, mask: Mask, flagged: bool, armed: bool) | Broken(clock: nat)

  /** Time goes by; a check that comes up sets the flag and, unless it was set, takes the event off the descriptor. */
  function Checked(w: Watch, ev: Event, due: nat, r: Round): Watch
    requires w.Watch?
  {
    var clock := w.clock + r.ms;
    if w.armed && due <= clock then
      Watch(clock, if w.flagged || r.cancelFails then w.mask else w.mask.Without(ev), true, false)
    else w.(clock := clock)
  }

  /** A report takes off the registered events it is about; it breaks the wait if one of those it names is gone while
      another is there. */
  function Told(w: Watch, r: Round): Watch
    requires w.Watch?
  {
    if r.reportFails || w.mask == NONE then w
    else if !r.hangup && !(w.mask.read && r.reported.read) && !(w.mask.write && r.reported.write) then w
    else if (r.reported.read && !w.mask.read) || (r.reported.write && !w.mask.write) then Broken(w.clock)
    else w.(mask := if r.hangup then NONE else w.mask.Minus(r.reported))
  }

  /** Rounds go by while the call's event is registered. */
  function Parked(w: Watch, ev: Event, due: nat, rounds: seq<Round>): Watch
    decreases |rounds|
  {
    if rounds == [] || w.Broken? || !w.mask.Has(ev) then w
    else Parked(Told(Checked(w, ev, due, rounds[0]), rounds[0]), ev, due, rounds[1..])
  }

  /** A wait behind a system call that would block: how the call ends there, or None if it goes back to the system
      call; the clock then; and what is registered on the descriptor. */
  datatype Wait = Wait(end: Option<End>, clock: nat, mask: Mask)

  function WaitFrom(clock: nat, mask: Mask, to: Option<nat>, ev: Event, addFails: bool, rounds: seq<Round>): Wait {
    if mask.Has(ev) then Wait(Some(Aborted), clock, mask)
    else if addFails then Wait(Some(Refused), clock, mask)
    else
      match Parked(Watch(clock, mask.With(ev), false, to.Some?), ev, if to.Some? then clock + to.value else 0, rounds)
      case Broken(c) => Wait(Some(Aborted), c, mask)
      case Watch(c, m, flagged, _) =>
        Wait(if m.Has(ev) then Some(Waiting) else if flagged then Some(TimedOut) else None, c, m)
  }

  /** The whole call: how it ends, after how many system calls, and when. */
  datatype Course = Course(end: End, calls: nat, clock: nat)

  /** The call before system call number `k`. */
  function CourseFrom(k: nat, clock: nat, mask: Mask, to: Option<nat>, ev: Event,
                      answers: seq<Answer>, rounds: seq<seq<Round>>, refusals: seq<bool>): Course
    requires k <= |answers| == |rounds| == |refusals|
    decreases |answers| - k
  {
    if k == |answers| then Course(Waiting, k, clock)
    else
      match answers[k]
      case Value(n) => Course(Returned(n), k + 1, clock)
      case Interrupted => CourseFrom(k + 1, clock, mask, to, ev, answers, rounds, refusals)
      case WouldBlock =>
        var w := WaitFrom(clock, mask, to, ev, refusals[k], rounds[k]);
        if w.end.Some? then Course(w.end.value, k + 1, w.clock)
        else CourseFrom(k + 1, w.clock, w.mask, to, ev, answers, rounds, refusals)
  }

  // ------------------------------------------------------------------- when a wait ends

  /** How much time the rounds take. */
  function Elapsed(rounds: seq<Round>): nat {
    if rounds == [] then 0 else rounds[0].ms + Elapsed(rounds[1..])
  }

  /** An accepted report that is about the event. */
  predicate Wakes(r: Round, ev: Event) {
    !r.reportFails && (r.hangup || r.reported.Has(ev))
  }

  /** Round number `k` is the one that brings the clock to the deadline. */
  predicate Reaches(clock: nat, due: nat, rounds: seq<Round>, k: nat) {
    k < |rounds| && due <= clock + Elapsed(rounds[..k + 1]) && (k == 0 || clock + Elapsed(rounds[..k]) < due)
  }

  lemma FirstRound(rounds: seq<Round>, k: nat)
    requires k < |rounds|
    ensures rounds[..k + 1][1..] == rounds[1..][..k] && Elapsed(rounds[..k + 1]) == rounds[0].ms + Elapsed(rounds[1..][..k])
  {
    assert rounds[..k + 1][1..] == rounds[1..][..k];
  }

  /** The condition under which a wait with a limit is still going on after all its rounds. */
  ghost predicate NothingEnds(clock: nat, ev: Event, due: nat, rounds: seq<Round>) {
    forall k :: 0 <= k < |rounds| ==> !Wakes(rounds[k], ev) && (Reaches(clock, due, rounds, k) ==> rounds[k].cancelFails)
  }

  /** The rest of the rounds, when the first one does not reach the deadline. */
  lemma RestReaches(clock: nat, due: nat, rounds: seq<Round>, k: nat)
    requires 0 < k < |rounds| && clock + rounds[0].ms < due
    ensures Reaches(clock, due, rounds, k) <==> Reaches(clock + rounds[0].ms, due, rounds[1..], k - 1)
  {
    FirstRound(rounds, k);
    FirstRound(rounds, k - 1);
  }

  lemma FirstReaches(clock: nat, due: nat, rounds: seq<Round>)
    requires rounds != []
    ensures Reaches(clock, due, rounds, 0) <==> due <= clock + rounds[0].ms
    ensures due <= clock + rounds[0].ms ==> forall k :: 0 < k ==> !Reaches(clock, due, rounds, k)
  {
    FirstRound(rounds, 0);
    assert rounds[1..][..0] == [];
    if due <= clock + rounds[0].ms {
      forall k | 0 < k
        ensures !Reaches(clock, due, rounds, k)
      {
        if k < |rounds| { FirstRound(rounds, k - 1); }
      }
    }
  }

  lemma RestEnds(clock: nat, ev: Event, due: nat, rounds: seq<Round>)
    requires rounds != [] && clock + rounds[0].ms < due
    ensures NothingEnds(clock, ev, due, rounds) <==> !Wakes(rounds[0], ev) && NothingEnds(clock + rounds[0].ms, ev, due, rounds[1..])
  {
    FirstReaches(clock, due, rounds);
    forall k | 0 <= k < |rounds[1..]|
      ensures rounds[1..][k] == rounds[k + 1]
      ensures Reaches(clock, due, rounds, k + 1) <==> Reaches(clock + rounds[0].ms, due, rounds[1..], k)
    {
      RestReaches(clock, due, rounds, k + 1);
    }
    if NothingEnds(clock, ev, due, rounds) {
      forall k | 0 <= k < |rounds[1..]|
        ensures !Wakes(rounds[1..][k], ev) && (Reaches(clock + rounds[0].ms, due, rounds[1..], k) ==> rounds[1..][k].cancelFails)
      {
        assert !Wakes(rounds[k + 1], ev) && (Reaches(clock, due, rounds, k + 1) ==> rounds[k + 1].cancelFails);
      }
    }
    if !Wakes(rounds[0], ev) && NothingEnds(clock + rounds[0].ms, ev, due, rounds[1..]) {
      forall k | 0 <= k < |rounds|
        ensures !Wakes(rounds[k], ev) && (Reaches(clock, due, rounds, k) ==> rounds[k].cancelFails)
      {
        if k > 0 { assert rounds[k] == rounds[1..][k - 1]; RestReaches(clock, due, rounds, k); }
      }
    }
  }

  /** Without a check to come, only reports end the wait. */
  lemma {:induction false} UnarmedGoesOn(w: Watch, ev: Event, due: nat, rounds: seq<Round>)
    requires w.Watch? && !w.armed && w.mask.Has(ev) && Parked(w, ev, due, rounds).Watch?
    ensures Parked(w, ev, due, rounds).mask.Has(ev) <==> forall k :: 0 <= k < |rounds| ==> !Wakes(rounds[k], ev)
    ensures Parked(w, ev, due, rounds).flagged == w.flagged && Parked(w, ev, due, rounds).clock >= w.clock
    decreases |rounds|
  {
    if rounds != [] {
      var r := rounds[0];
      var w' := Told(Checked(w, ev, due, r), r);
      assert forall k :: 0 <= k < |rounds[1..]| ==> rounds[1..][k] == rounds[k + 1];
      if w'.Watch? && w'.mask.Has(ev) {
        UnarmedGoesOn(w', ev, due, rounds[1..]);
        if forall k :: 0 <= k < |rounds[1..]| ==> !Wakes(rounds[1..][k], ev) {
          assert forall k :: 0 < k < |rounds| ==> rounds[k] == rounds[1..][k - 1];
        }
      }
    }
  }

  /** When a wait with a time limit goes on through all its rounds: exactly if no accepted report is about its event
      and epoll_ctl refuses the cancellation in the round that brings the clock to the deadline, if there is one. */
  lemma {:induction false} WaitGoesOnIff(w: Watch, ev: Event, due: nat, rounds: seq<Round>)
    requires w.Watch? && w.armed && !w.flagged && w.mask.Has(ev) && Parked(w, ev, due, rounds).Watch?
    ensures Parked(w, ev, due, rounds).mask.Has(ev) <==> NothingEnds(w.clock, ev, due, rounds)
    decreases |rounds|
  {
    if rounds != [] {
      var r := rounds[0];
      var w' := Told(Checked(w, ev, due, r), r);
      FirstReaches(w.clock, due, rounds);
      if due > w.clock + r.ms {
        RestEnds(w.clock, ev, due, rounds);
        if w'.Watch? && w'.mask.Has(ev) { WaitGoesOnIff(w', ev, due, rounds[1..]); }
      } else if w'.Watch? && w'.mask.Has(ev) {
        UnarmedGoesOn(w', ev, due, rounds[1..]);
        assert forall k :: 0 < k < |rounds| ==> rounds[k] == rounds[1..][k - 1];
        assert forall k :: 0 <= k < |rounds[1..]| ==> rounds[1..][k] == rounds[k + 1];
      }
    }
  }

  /** The flag of a wait with a limit that saw at least one round says exactly whether the deadline has come. */
  lemma {:induction false} FlagIsDeadline(w: Watch, ev: Event, due: nat, rounds: seq<Round>)
    requires w.Watch? && w.armed && !w.flagged && w.mask.Has(ev) && rounds != [] && Parked(w, ev, due, rounds).Watch?
    ensures var p := Parked(w, ev, due, rounds); p.flagged <==> due <= p.clock
    decreases |rounds|
  {
    var r := rounds[0];
    var w' := Told(Checked(w, ev, due, r), r);
    if due > w.clock + r.ms {
      if w'.mask.Has(ev) && rounds[1..] != [] { FlagIsDeadline(w', ev, due, rounds[1..]); }
    } else if w'.Watch? && w'.mask.Has(ev) {
      UnarmedGoesOn(w', ev, due, rounds[1..]);
    }
  }

  /** What a wait with limit `to` comes to, unless an assertion breaks it off: it times out exactly if it ends at or
      after its deadline, and a limit that is reached in some round ends it unless that cancellation is refused. */
  lemma LimitDecides(clock: nat, mask: Mask, to: nat, ev: Event, rounds: seq<Round>)
    requires !mask.Has(ev)
    ensures var w := WaitFrom(clock, mask, Some(to), ev, false, rounds);
      w.end != Some(Aborted) ==>
        && (w.end == Some(Waiting) <==> NothingEnds(clock, ev, clock + to, rounds))
        && (w.end == Some(TimedOut) <==> w.end != Some(Waiting) && w.clock >= clock + to)
        && (w.end == None <==> w.end != Some(Waiting) && w.clock < clock + to)
  {
    var w := Watch(clock, mask.With(ev), false, true);
    if Parked(w, ev, clock + to, rounds).Watch? {
      WaitGoesOnIff(w, ev, clock + to, rounds);
      if rounds != [] { FlagIsDeadline(w, ev, clock + to, rounds); }
    }
  }

  ghost predicate Outlasts(clock: nat, ev: Event, to: nat, rounds: seq<Round>) {
    NothingEnds(clock, ev, clock + to, rounds)
  }

  /** A call whose limit ends every one of its waits is still waiting only where the script of answers stops. */
  lemma {:induction false} LimitedCallEnds(k: nat, clock: nat, mask: Mask, to: nat, ev: Event,
                                           answers: seq<Answer>, rounds: seq<seq<Round>>, refusals: seq<bool>)
    requires k <= |answers| == |rounds| == |refusals|
    requires forall i, c: nat :: k <= i < |answers| && answers[i].WouldBlock? ==> !Outlasts(c, ev, to, rounds[i])
    ensures var c := CourseFrom(k, clock, mask, Some(to), ev, answers, rounds, refusals);
      c.end == Waiting ==> c.calls == |answers| && forall i :: k <= i < |answers| ==> !answers[i].Value?
    decreases |answers| - k
  {
    if k < |answers| {
      match answers[k]
      case Value(n) =>
      case Interrupted => LimitedCallEnds(k + 1, clock, mask, to, ev, answers, rounds, refusals);
      case WouldBlock =>
        var w := WaitFrom(clock, mask, Some(to), ev, refusals[k], rounds[k]);
        assert !Outlasts(clock, ev, to, rounds[k]);
        if !mask.Has(ev) && !refusals[k] { LimitDecides(clock, mask, to, ev, rounds[k]); }
        if w.end == None { LimitedCallEnds(k + 1, w.clock, w.mask, to, ev, answers, rounds, refusals); }
    }
  }
}
