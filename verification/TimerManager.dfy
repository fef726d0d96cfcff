/** Timers as the program keeps them: Timer objects whose deadline and callback change in
    place, held in a set ordered by (deadline, address). */
module TimerManagement {
  import opened Prelude
  import opened Timers

  class Timer<C> {
    /** The address std::set falls back on to order equal deadlines. */
    const addr: nat
    const recurring: bool
    var ms: nat
    var next: nat
    var cb: Option<C>

    constructor (addr: nat, ms: nat, cb: Option<C>, recurring: bool, now: nat)
      ensures View() == Rec(addr, ms, now + ms, cb, recurring)
    {
      this.addr, this.ms, this.next, this.cb, this.recurring := addr, ms, now + ms, cb, recurring;
    }

    function View(): Rec<Option<C>>
      reads this
    {
      Rec(addr, ms, next, cb, recurring)
    }
  }

  class TimerManager<C> {
    var timers: seq<Timer<C>>
    /** Every timer this manager ever created. */
    ghost var known: set<Timer<C>>

    function View(): seq<Rec<Option<C>>>
      reads this, timers
    {
      seq(|timers|, i requires 0 <= i < |timers| reads this, timers => timers[i].View())
    }

    ghost predicate Valid()
      reads this, known, timers
    {
      && (forall t :: t in timers ==> t in known)
      && (forall s, t :: s in known && t in known && s.addr == t.addr ==> s == t)
      && Sorted(View()) && Distinct(View())
    }

    /** A timer is in the set iff its callback is non-null. */
    ghost predicate InSync()
      reads this, known, timers
    {
      forall t :: t in known ==> (t in timers <==> t.cb.Some?)
    }

    constructor ()
      ensures Valid() && InSync() && timers == [] && known == {}
    {
      timers, known := [], {};
    }

    lemma AddressesIdentify(t: Timer<C>)
      requires Valid() && t in known
      ensures t in timers <==> Holds(View(), t.addr)
      ensures forall i, j :: 0 <= i < j < |timers| ==> timers[i] != timers[j]
      ensures t in timers ==> Find(View(), t.next, t.addr).Some? && timers[Find(View(), t.next, t.addr).value] == t
      ensures t !in timers ==> Find(View(), t.next, t.addr).None?
    {
      if t in timers {
        var i :| 0 <= i < |timers| && timers[i] == t;
        assert View()[i] == t.View();
        FindFinds(View(), i);
      }
      forall i, j | 0 <= i < j < |timers|
        ensures timers[i] != timers[j]
      {
        assert View()[i].addr != View()[j].addr;
      }
    }

    /** addTimer; `addr` is where the allocator put the new timer. Returns the timer and whether the
        poller was tickled because the new timer is now the first to expire. */
    method AddTimer(ms: nat, cb: Option<C>, recurring: bool, now: nat, addr: nat)
      returns (timer: Timer<C>, tickled: bool)
      requires Valid()
      requires forall t :: t in known ==> t.addr != addr
      modifies this
      ensures Valid() && fresh(timer) && known == old(known) + {timer}
      ensures timer.View() == Rec(addr, ms, now + ms, cb, recurring)
      ensures View() == Insert(old(View()), timer.View())
      ensures tickled <==> timers[0] == timer
      ensures old(InSync()) ==> (InSync() <==> cb.Some?)
    {
      timer := new Timer(addr, ms, cb, recurring, now);
      assert !Holds(View(), addr);
      InsertKeeps(View(), timer.View());
      ghost var after := Insert(View(), timer.View());
      var i := PutIn(timer);
      known := known + {timer};
      assert View() == after;
      tickled := i == 0;
      assert i > 0 ==> timers[0] == old(timers)[0];
    }

    /** m_timers.insert; the result is where. */
    method PutIn(t: Timer<C>) returns (i: nat)
      requires t !in timers
      modifies this`timers
      ensures View() == Insert(old(View()), t.View())
      ensures i <= |old(timers)| && timers == old(timers)[..i] + [t] + old(timers)[i..]
      ensures forall s :: s in timers <==> s in old(timers) || s == t
    {
      i := LowerBound(View(), t.next, t.addr);
      timers := timers[..i] + [t] + timers[i..];
      assert timers[i] == t;
      assert View() == Insert(old(View()), t.View());
    }

    /** Timer::cancel. */
    method Cancel(t: Timer<C>) returns (r: bool)
      requires Valid() && t in known
      modifies this`timers, t`cb
      ensures Valid() && t.cb.None?
      ensures r == old(t.cb).Some?
      ensures !r ==> timers == old(timers)
      ensures r ==> View() == Erase(old(View()), t.next, t.addr) && t !in timers
      ensures forall s :: s in timers <==> s in old(timers) && (s != t || !r)
      ensures old(InSync()) ==> InSync()
    {
      if t.cb.None? {
        return false;
      }
      DropCb(t);
      Remove(t);
      r := true;
    }

    /** m_cb = nullptr: the order does not depend on it. */
    method DropCb(t: Timer<C>)
      requires Valid() && t in known
      modifies t`cb
      ensures Valid() && t.cb.None?
      ensures forall next, addr :: Find(View(), next, addr) == old(Find(View(), next, addr))
      ensures t in timers ==> Erase(View(), t.next, t.addr) == old(Erase(View(), t.next, t.addr))
      ensures t !in timers ==> View() == old(View())
    {
      ghost var before := View();
      AddressesIdentify(t);
      t.cb := None;
      KeysOnly(before, View());
    }

    /** find and, if it is there, erase. */
    method Remove(t: Timer<C>)
      requires Valid() && t in known
      modifies this`timers
      ensures Valid() && View() == Erase(old(View()), t.next, t.addr)
      ensures forall s :: s in timers <==> s in old(timers) && s != t
    {
      var it := FindTimer(t);
      if it.Some? {
        TakeOut(t, it.value);
      }
    }

    /** m_timers.find. */
    method FindTimer(t: Timer<C>) returns (it: Option<nat>)
      requires Valid() && t in known
      ensures it.Some? <==> t in timers
      ensures it.Some? ==> it.value < |timers| && timers[it.value] == t
      ensures it.None? ==> Erase(View(), t.next, t.addr) == View()
    {
      AddressesIdentify(t);
      it := Find(View(), t.next, t.addr);
    }

    /** Order and lookup depend on the keys only. */
    static lemma KeysOnly(a: seq<Rec<Option<C>>>, b: seq<Rec<Option<C>>>)
      requires |a| == |b| && forall i :: 0 <= i < |a| ==> a[i].next == b[i].next && a[i].addr == b[i].addr
      ensures Sorted(a) ==> Sorted(b)
      ensures Distinct(a) ==> Distinct(b)
      ensures forall next, addr :: Find(a, next, addr) == Find(b, next, addr)
    {
      forall next, addr
        ensures LowerBound(a, next, addr) == LowerBound(b, next, addr)
      {
        SameKeys(a, b, next, addr);
      }
    }

    static lemma {:induction false} SameKeys(a: seq<Rec<Option<C>>>, b: seq<Rec<Option<C>>>, next: nat, addr: nat)
      requires |a| == |b| && forall i :: 0 <= i < |a| ==> a[i].next == b[i].next && a[i].addr == b[i].addr
      ensures LowerBound(a, next, addr) == LowerBound(b, next, addr)
    {
      if a != [] { SameKeys(a[1..], b[1..], next, addr); }
    }

    ghost predicate AllDistinct(ts: seq<Timer<C>>) {
      forall i, j :: 0 <= i < j < |ts| ==> ts[i] != ts[j]
    }

    ghost function Views(ts: seq<Timer<C>>): seq<Rec<Option<C>>>
      reads ts
    {
      seq(|ts|, i requires 0 <= i < |ts| reads ts => ts[i].View())
    }

    /** One expired timer, already out of the set: copy its callback out, then re-arm or retire it. Its key
        changes while it is outside the set. */
    method HandOut(timer: Timer<C>, now: nat) returns (cb: Option<C>)
      requires timer !in timers
      modifies this`timers, timer
      ensures cb == old(timer.cb) && timer.ms == old(timer.ms)
      ensures timer.next == if timer.recurring then now + timer.ms else old(timer.next)
      ensures timer.cb == if timer.recurring then cb else None
      ensures View() == if timer.recurring then Insert(old(View()), Rearmed(old(timer.View()), now)) else old(View())
      ensures forall t :: t in timers <==> t in old(timers) || (t == timer && t.recurring)
    {
      cb := timer.cb;
      if timer.recurring {
        PutBack(timer, now);
      } else {
        Retire(timer);
      }
    }

    method PutBack(timer: Timer<C>, now: nat)
      requires timer !in timers
      modifies this`timers, timer`next
      ensures timer.next == now + timer.ms
      ensures View() == Insert(old(View()), Rearmed(old(timer.View()), now))
      ensures forall t :: t in timers <==> t in old(timers) || t == timer
    {
      NewKey(timer, now + timer.ms);
      var i := PutIn(timer);
    }

    method NewKey(timer: Timer<C>, next: nat)
      requires timer !in timers
      modifies timer`next
      ensures timer.next == next && View() == old(View())
    {
      timer.next := next;
      assert View() == old(View());
    }

    method Retire(timer: Timer<C>)
      requires timer !in timers
      modifies timer`cb
      ensures timer.cb == None && View() == old(View())
    {
      timer.cb := None;
      assert View() == old(View());
    }

    /** The callbacks `cbs` of the first of the expired timers, which were `due` when they were taken out, have been
        handed out; `before` was the set then. */
    ghost predicate Partly(expired: seq<Timer<C>>, due: seq<Rec<Option<C>>>, before: seq<Timer<C>>, cbs: seq<Option<C>>, now: nat)
      reads this`timers, expired
    {
      && |cbs| <= |expired| == |due|
      && (forall m :: |cbs| <= m < |expired| ==> expired[m].View() == due[m])
      && (forall m :: 0 <= m < |cbs| ==> cbs[m] == due[m].cb && expired[m].cb == if expired[m].recurring then cbs[m] else None)
      && (forall m :: 0 <= m < |cbs| ==>
            expired[m].ms == due[m].ms && expired[m].next == if expired[m].recurring then now + due[m].ms else due[m].next)
      && (forall t :: t in timers ==> t in before || t in expired)
      && (forall t :: t in before ==> t in timers)
      && (forall m :: 0 <= m < |expired| ==> (expired[m] in timers <==> m < |cbs| && expired[m].recurring))
    }

    /** One turn of the loop over the expired timers. */
    method HandOutNext(expired: seq<Timer<C>>, cbs: seq<Option<C>>, now: nat, ghost due: seq<Rec<Option<C>>>, ghost before: seq<Timer<C>>)
      returns (more: seq<Option<C>>)
      requires AllDistinct(expired) && Partly(expired, due, before, cbs, now) && |cbs| < |expired|
      modifies this`timers, expired[|cbs|]
      ensures Partly(expired, due, before, more, now) && |more| == |cbs| + 1
      ensures Rearm(View(), due[|more|..], now) == Rearm(old(View()), due[|cbs|..], now)
    {
      var k := |cbs|;
      RearmFrom(View(), due, k, now);
      var cb := HandOut(expired[k], now);
      more := cbs + [cb];
    }

    static lemma RearmFrom(q: seq<Rec<Option<C>>>, due: seq<Rec<Option<C>>>, k: nat, now: nat)
      requires k < |due|
      ensures Rearm(q, due[k..], now) == Rearm(if due[k].recurring then Insert(q, Rearmed(due[k], now)) else q, due[k + 1..], now)
    {
      assert due[k..][0] == due[k] && due[k..][1..] == due[k + 1..];
    }

    /** The loop over the expired timers. */
    method HandOutAll(expired: seq<Timer<C>>, now: nat) returns (cbs: seq<Option<C>>)
      requires AllDistinct(expired) && forall t :: t in expired ==> t !in timers
      modifies this`timers, expired
      ensures View() == Rearm(old(View()), old(Views(expired)), now)
      ensures |cbs| == |expired|
      ensures forall k :: 0 <= k < |expired| ==>
        cbs[k] == old(expired[k].cb) && expired[k].cb == (if expired[k].recurring then cbs[k] else None)
      ensures forall k :: 0 <= k < |expired| ==>
        expired[k].ms == old(expired[k].ms) && expired[k].next == if expired[k].recurring then now + expired[k].ms else old(expired[k].next)
      ensures forall t :: t in timers <==> t in old(timers) || (t in expired && t.recurring)
    {
      cbs := [];
      ghost var due := Views(expired);
      assert due[0..] == due;
      for k := 0 to |expired|
        invariant |cbs| == k && Partly(expired, due, old(timers), cbs, now)
        invariant Rearm(View(), due[k..], now) == Rearm(old(View()), due, now)
      {
        cbs := HandOutNext(expired, cbs, now, due, old(timers));
      }
    }

    lemma TimersDistinct()
      requires Distinct(View())
      ensures AllDistinct(timers)
    {
      forall i, j | 0 <= i < j < |timers|
        ensures timers[i] != timers[j]
      {
        assert View()[i].addr != View()[j].addr;
      }
    }

    /** Find where the due timers end and take them off the front of the set. */
    method TakeDue(now: nat, probe: nat) returns (expired: seq<Timer<C>>)
      requires Distinct(View())
      modifies this`timers
      ensures |expired| == Cut(old(View()), now, probe) <= |old(timers)|
      ensures expired == old(timers)[..|expired|] && timers == old(timers)[|expired|..]
      ensures View() == old(View())[|expired|..] && Views(expired) == old(View())[..|expired|]
      ensures AllDistinct(expired) && forall t :: t in expired ==> t !in timers
      ensures forall t :: t in old(timers) ==> t in expired || t in timers
      ensures forall t :: t in expired || t in timers ==> t in old(timers)
    {
      TimersDistinct();
      var it := LowerBound(View(), now, probe);
      while it < |timers| && timers[it].next == now
        invariant it <= |timers|
        invariant SkipDue(View(), it, now) == Cut(View(), now, probe)
      {
        it := it + 1;
      }
      expired := timers[..it];
      timers := timers[it..];
    }

    /** listExpiredCb behind its test for an empty set. */
    method ExpireDue(now: nat, probe: nat) returns (cbs: seq<Option<C>>, ghost expired: seq<Timer<C>>)
      requires Sorted(View()) && Distinct(View())
      modifies this`timers, timers
      ensures Sorted(View()) && Distinct(View())
      ensures View() == Expire(old(View()), now, probe)
      ensures |cbs| == |expired| == Cut(old(View()), now, probe) && expired <= old(timers)
      ensures forall k :: 0 <= k < |cbs| ==>
        cbs[k] == old(expired[k].cb) && expired[k].cb == if expired[k].recurring then cbs[k] else None
      ensures forall k :: 0 <= k < |cbs| ==>
        expired[k].ms == old(expired[k].ms) && expired[k].next == if expired[k].recurring then now + expired[k].ms else old(expired[k].next)
      ensures forall t :: t in timers <==> t in old(timers) && (t in expired ==> t.recurring)
      ensures forall t :: t in old(timers) && t !in expired ==> t.View() == old(t.View())
    {
      ExpireSplits(View(), now, probe);
      var due := TakeDue(now, probe);
      expired := due;
      cbs := HandOutAll(due, now);
    }

    /** listExpiredCb at time `now`; `probe` is the address of its temporary timer. The callbacks are those
        of exactly the due timers, in set order. */
    method ListExpiredCb(now: nat, probe: nat) returns (cbs: seq<Option<C>>, ghost expired: seq<Timer<C>>)
      requires Valid()
      modifies this`timers, timers
      ensures Valid()
      ensures View() == Expire(old(View()), now, probe)
      ensures |cbs| == |expired| == Cut(old(View()), now, probe) && expired <= old(timers)
      ensures forall k :: 0 <= k < |cbs| ==>
        cbs[k] == old(expired[k].cb) && expired[k].cb == if expired[k].recurring then cbs[k] else None
      ensures forall k :: 0 <= k < |cbs| ==>
        expired[k].ms == old(expired[k].ms) && expired[k].next == if expired[k].recurring then now + expired[k].ms else old(expired[k].next)
      ensures forall t :: t in timers <==> t in old(timers) && (t in expired ==> t.recurring)
      ensures forall t :: t in old(timers) && t !in expired ==> t.View() == old(t.View())
      ensures old(InSync()) ==> InSync()
    {
      if timers == [] {
        EmptyExpires(now, probe);
        return [], [];
      }
      cbs, expired := ExpireDue(now, probe);
    }

    static lemma EmptyExpires(now: nat, probe: nat)
      ensures Cut<Option<C>>([], now, probe) == 0 && Expire<Option<C>>([], now, probe) == []
    {
    }

    /** getNextTimer: a positive answer is the exact wait until the earliest of all deadlines. */
    method GetNextTimer(now: nat) returns (r: nat)
      requires Valid()
      ensures r == NextTimer(View(), now)
      ensures r > 0 ==> (exists t :: t in timers && t.next == now + r) && forall t :: t in timers ==> now + r <= t.next
      ensures r == 0 ==> timers == [] || exists t :: t in timers && t.next <= now
    {
      if timers == [] {
        return 0;
      }
      var first := timers[0];
      forall t | t in timers
        ensures first.next <= t.next
      {
        var i :| 0 <= i < |timers| && timers[i] == t;
        assert i > 0 ==> Less(View()[0].next, View()[0].addr, View()[i].next, View()[i].addr);
      }
      r := if first.next >= now then first.next - now else 0;
    }

    /** Timer::refresh as written: no timer is ever re-armed. It answers false for a dead timer and for one in the set,
        and erases the end iterator, which is undefined, for a live one outside the set: one that reset lost. */
    method Refresh(t: Timer<C>) returns (r: Refreshed)
      requires Valid() && t in known
      ensures r == if t.cb.Some? && t !in timers then EraseEnd else Answer(false)
      ensures InSync() ==> r == Answer(false)
    {
      if t.cb.None? {
        return Answer(false);
      }
      var it := FindTimer(t);
      r := if it.Some? then Answer(false) else EraseEnd;
    }

    /** Timer::reset as written: true without any change if the period stays, false for a timer that is dead or lost
        already; otherwise it takes the timer out of the set, changes it, and never puts it back. A set in step
        with the callbacks stays so exactly when reset leaves early. */
    method Reset(t: Timer<C>, ms: nat, fromNow: bool, now: nat) returns (r: bool)
      requires Valid() && t in known && t.next >= t.ms
      modifies this`timers, t`ms, t`next
      ensures Valid()
      ensures r <==> (ms == old(t.ms) && !fromNow) || (t.cb.Some? && t in old(timers))
      ensures (ms == old(t.ms) && !fromNow) || !r ==> unchanged(this) && unchanged(t)
      ensures r && !(ms == old(t.ms) && !fromNow) ==>
        && t.ms == ms && t.next == (if fromNow then now else old(t.next) - old(t.ms)) + ms
        && View() == Erase(old(View()), old(t.next), t.addr) && t !in timers && t.cb.Some?
      ensures forall s :: s in timers <==> s in old(timers) && (s != t || !r || (ms == old(t.ms) && !fromNow))
      ensures old(InSync()) ==> (InSync() <==> t.cb.None? || (ms == old(t.ms) && !fromNow))
    {
      if ms == t.ms && !fromNow {
        return true;
      }
      if t.cb.None? {
        return false;
      }
      var it := FindTimer(t);
      if it.None? {
        return false;
      }
      TakeOut(t, it.value);
      var start := if fromNow then now else t.next - t.ms;
      Rekey(t, ms, start + ms);
      r := true;
    }

    /** A timer outside the set may change its key. */
    method Rekey(t: Timer<C>, ms: nat, next: nat)
      requires Valid() && t !in timers
      modifies t`ms, t`next
      ensures Valid() && View() == old(View()) && t.ms == ms && t.next == next
    {
      t.ms := ms;
      NewKey(t, next);
    }

    /** m_timers.erase at the place where find found the timer. */
    method TakeOut(t: Timer<C>, i: nat)
      requires Valid() && t in known && i < |timers| && timers[i] == t
      modifies this`timers
      ensures Valid() && View() == Erase(old(View()), t.next, t.addr)
      ensures forall s :: s in timers <==> s in old(timers) && s != t
    {
      ghost var before := View();
      AddressesIdentify(t);
      EraseKeeps(before, i);
      timers := timers[..i] + timers[i + 1..];
      assert View() == before[..i] + before[i + 1..];
      assert old(timers) == old(timers)[..i] + [t] + old(timers)[i + 1..];
    }
  }

  /** What refresh did: answered, or erased the iterator behind the last element. */
  datatype Refreshed = Answer(ok: bool) | EraseEnd

  /** A timer that was reset once is lost: resetting it again fails, and refreshing it is undefined. */
  method ResetLoses<C>(m: TimerManager<C>, t: Timer<C>, ms: nat, again: nat, now: nat) returns (first: bool, second: bool, refreshed: Refreshed)
    requires m.Valid() && m.InSync() && t in m.timers && t.next >= t.ms && ms != t.ms && again != ms
    modifies m`timers, t`ms, t`next
    ensures first && !second && refreshed == EraseEnd && t.cb.Some? && t !in m.timers
  {
    first := m.Reset(t, ms, false, now);
    second := m.Reset(t, again, false, now);
    refreshed := m.Refresh(t);
  }
}
