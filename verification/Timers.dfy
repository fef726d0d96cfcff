/** The timer queue: an ordered set keyed by (deadline, identity), as values.
    The classes in TimerManager.dfy are proved to compute these functions. */
module Timers {
  import opened Prelude

  /** A timer in the set. `addr` stands for the pointer that breaks ties between equal deadlines. */
  datatype Rec<C> = Rec(addr: nat, ms: nat, next: nat, cb: C, recurring: bool)

  /** Timer::Comparator on non-null timers. */
  predicate Less(next1: nat, addr1: nat, next2: nat, addr2: nat) {
    if next1 != next2 then next1 < next2 else addr1 < addr2
  }

  /** Timer::Comparator, null pointers included: null comes last. */
  predicate Comparator<C>(lhs: Option<Rec<C>>, rhs: Option<Rec<C>>) {
    match (lhs, rhs)
    case (None, None) => false
    case (None, Some(_)) => false
    case (Some(_), None) => true
    case (Some(l), Some(r)) => Less(l.next, l.addr, r.next, r.addr)
  }

  /** The comparator is a strict weak order whose ties are exactly the same pointer (with one deadline) or two nulls. */
  lemma ComparatorOrders<C>(a: Option<Rec<C>>, b: Option<Rec<C>>, c: Option<Rec<C>>)
    ensures !Comparator(a, a)
    ensures Comparator(a, b) && Comparator(b, c) ==> Comparator(a, c)
    ensures !Comparator(a, b) && !Comparator(b, a) <==>
            (a.None? && b.None?) ||
            (a.Some? && b.Some? && a.value.addr == b.value.addr && a.value.next == b.value.next)
  {
  }

  /** Iteration order of the set. */
  ghost predicate Sorted<C>(q: seq<Rec<C>>) {
    forall i, j :: 0 <= i < j < |q| ==> Less(q[i].next, q[i].addr, q[j].next, q[j].addr)
  }

  ghost predicate Distinct<C>(q: seq<Rec<C>>) {
    forall i, j :: 0 <= i < j < |q| ==> q[i].addr != q[j].addr
  }

  ghost predicate Holds<C>(q: seq<Rec<C>>, addr: nat) {
    exists i :: 0 <= i < |q| && q[i].addr == addr
  }

  /** std::set::lower_bound: the first element not less than the key. */
  function LowerBound<C>(q: seq<Rec<C>>, next: nat, addr: nat): (i: nat)
    ensures i <= |q|
    ensures forall k :: 0 <= k < i ==> Less(q[k].next, q[k].addr, next, addr)
    ensures i < |q| ==> !Less(q[i].next, q[i].addr, next, addr)
  {
    if q == [] || !Less(q[0].next, q[0].addr, next, addr) then 0
    else
      var i := LowerBound(q[1..], next, addr);
      assert forall k :: 0 < k < i + 1 ==> q[k] == q[1..][k - 1];
      i + 1
  }

  /** std::set::find. */
  function Find<C>(q: seq<Rec<C>>, next: nat, addr: nat): (i: Option<nat>)
    ensures i.Some? ==> i.value < |q| && q[i.value].addr == addr && q[i.value].next == next
  {
    var i := LowerBound(q, next, addr);
    if i < |q| && !Less(next, addr, q[i].next, q[i].addr) then Some(i) else None
  }

  function Insert<C>(q: seq<Rec<C>>, r: Rec<C>): seq<Rec<C>> {
    var i := LowerBound(q, r.next, r.addr);
    q[..i] + [r] + q[i..]
  }

  /** cancel's find-and-erase. */
  function Erase<C>(q: seq<Rec<C>>, next: nat, addr: nat): seq<Rec<C>> {
    match Find(q, next, addr)
    case None => q
    case Some(i) => q[..i] + q[i + 1..]
  }

  /** Step over the elements whose deadline is exactly `now`. */
  function SkipDue<C>(q: seq<Rec<C>>, i: nat, now: nat): (j: nat)
    requires i <= |q|
    ensures i <= j <= |q|
    ensures forall k :: i <= k < j ==> q[k].next == now
    ensures j < |q| ==> q[j].next != now
    decreases |q| - i
  {
    if i < |q| && q[i].next == now then SkipDue(q, i + 1, now) else i
  }

  /** How many timers listExpiredCb takes off the front; `probe` is the address of its temporary timer. */
  function Cut<C>(q: seq<Rec<C>>, now: nat, probe: nat): (i: nat)
    ensures i <= |q|
  {
    SkipDue(q, LowerBound(q, now, probe), now)
  }

  /** A recurring timer after a hand-out at `now`. */
  function Rearmed<C>(r: Rec<C>, now: nat): Rec<C> {
    r.(next := now + r.ms)
  }

  /** Put the recurring ones among `expired` back, each armed at `now` plus its period. */
  function Rearm<C>(q: seq<Rec<C>>, expired: seq<Rec<C>>, now: nat): seq<Rec<C>>
    decreases |expired|
  {
    if expired == [] then q
    else
      var r := expired[0];
      Rearm(if r.recurring then Insert(q, Rearmed(r, now)) else q, expired[1..], now)
  }

  /** The set after listExpiredCb. */
  function Expire<C>(q: seq<Rec<C>>, now: nat, probe: nat): seq<Rec<C>> {
    var i := Cut(q, now, probe);
    Rearm(q[i..], q[..i], now)
  }

  /** getNextTimer as written: the wait until the first deadline; 0 when it has passed and also when there is none. */
  function NextTimer<C>(q: seq<Rec<C>>, now: nat): nat {
    if q != [] && q[0].next >= now then q[0].next - now else 0
  }

  // ------------------------------------------------------------------------ laws

  /** Wherever the temporary timer's address makes lower_bound land among equal deadlines, the cut
      separates the due timers from the others exactly. */
  lemma CutIsExact<C>(q: seq<Rec<C>>, now: nat, probe: nat)
    requires Sorted(q)
    ensures forall k :: 0 <= k < Cut(q, now, probe) ==> q[k].next <= now
    ensures forall k :: Cut(q, now, probe) <= k < |q| ==> q[k].next > now
  {
    var l := LowerBound(q, now, probe);
    var i := Cut(q, now, probe);
    forall k | i <= k < |q|
      ensures q[k].next > now
    {
      if l < |q| {
        assert q[l].next >= now;
        assert q[i].next >= q[l].next by { assert i > l ==> Less(q[l].next, q[l].addr, q[i].next, q[i].addr); }
        assert q[k].next >= q[i].next by { assert k > i ==> Less(q[i].next, q[i].addr, q[k].next, q[k].addr); }
      }
    }
  }

  lemma InsertOrder<C>(q: seq<Rec<C>>, r: Rec<C>)
    requires Sorted(q) && !Holds(q, r.addr)
    ensures Sorted(Insert(q, r))
  {
    var i := LowerBound(q, r.next, r.addr);
    forall k | i <= k < |q|
      ensures Less(r.next, r.addr, q[k].next, q[k].addr)
    {
      assert q[k].addr != r.addr;
      assert k > i ==> Less(q[i].next, q[i].addr, q[k].next, q[k].addr);
    }
  }

  lemma InsertMembers<C>(q: seq<Rec<C>>, i: nat, r: Rec<C>)
    requires i <= |q|
    ensures var s := q[..i] + [r] + q[i..];
      && (forall x :: x in s <==> x in q || x == r)
      && (forall a :: Holds(s, a) <==> Holds(q, a) || a == r.addr)
  {
    var s := q[..i] + [r] + q[i..];
    assert s[i] == r;
    forall k | 0 <= k < |q|
      ensures q[k] in s && Holds(s, q[k].addr)
    {
      assert s[if k < i then k else k + 1] == q[k];
    }
    forall k | 0 <= k < |s| && k != i
      ensures s[k] in q && Holds(q, s[k].addr)
    {
      assert s[k] == q[if k < i then k else k - 1];
    }
  }

  /** Inserting a timer that is not in the set keeps the order and adds just that timer. */
  lemma InsertKeeps<C>(q: seq<Rec<C>>, r: Rec<C>)
    requires Sorted(q) && Distinct(q) && !Holds(q, r.addr)
    ensures Sorted(Insert(q, r)) && Distinct(Insert(q, r))
    ensures forall x :: x in Insert(q, r) <==> x in q || x == r
    ensures forall a :: Holds(Insert(q, r), a) <==> Holds(q, a) || a == r.addr
  {
    var i := LowerBound(q, r.next, r.addr);
    InsertOrder(q, r);
    InsertMembers(q, i, r);
    InsertDistinct(q, i, r);
  }

  lemma InsertDistinct<C>(q: seq<Rec<C>>, i: nat, r: Rec<C>)
    requires Distinct(q) && !Holds(q, r.addr) && i <= |q|
    ensures Distinct(q[..i] + [r] + q[i..])
  {
    var s := q[..i] + [r] + q[i..];
    assert forall k :: 0 <= k < i ==> s[k] == q[k];
    assert forall k :: i < k < |s| ==> s[k] == q[k - 1];
  }

  /** find locates a timer of the set, provided the key is the one it was inserted under. */
  lemma FindFinds<C>(q: seq<Rec<C>>, i: nat)
    requires Sorted(q) && i < |q|
    ensures Find(q, q[i].next, q[i].addr) == Some(i)
  {
    var l := LowerBound(q, q[i].next, q[i].addr);
    assert l == i;
  }

  lemma EraseKeeps<C>(q: seq<Rec<C>>, i: nat)
    requires Sorted(q) && Distinct(q) && i < |q|
    ensures var s := Erase(q, q[i].next, q[i].addr);
      && s == q[..i] + q[i + 1..]
      && Sorted(s) && Distinct(s)
      && (forall a :: Holds(s, a) <==> Holds(q, a) && a != q[i].addr)
      && (forall x :: x in s <==> x in q && x != q[i])
  {
    FindFinds(q, i);
    var s := q[..i] + q[i + 1..];
    assert s == Erase(q, q[i].next, q[i].addr);
    assert forall k :: 0 <= k < |s| ==> s[k] == q[if k < i then k else k + 1];
    EraseMembers(q, i);
  }

  lemma EraseMembers<C>(q: seq<Rec<C>>, i: nat)
    requires Distinct(q) && i < |q|
    ensures var s := q[..i] + q[i + 1..];
      && (forall a :: Holds(s, a) <==> Holds(q, a) && a != q[i].addr)
      && (forall x :: x in s <==> x in q && x != q[i])
  {
    var s := q[..i] + q[i + 1..];
    forall k | 0 <= k < |q| && k != i
      ensures q[k] in s && Holds(s, q[k].addr)
    {
      assert s[if k < i then k else k - 1] == q[k];
    }
    forall k | 0 <= k < |s|
      ensures s[k] in q && Holds(q, s[k].addr) && s[k].addr != q[i].addr
    {
      assert s[k] == q[if k < i then k else k + 1];
    }
  }

  /** `x` is a recurring one of `expired`, the same but for its deadline: one period from now. */
  ghost predicate IsRearmed<C>(expired: seq<Rec<C>>, now: nat, x: Rec<C>) {
    exists r :: r in expired && r.recurring && x == r.(next := now + r.ms)
  }

  /** The set keeps its order through expiry: keys change only outside the set. */
  lemma {:induction false} RearmKeeps<C>(q: seq<Rec<C>>, expired: seq<Rec<C>>, now: nat)
    requires Sorted(q) && Distinct(q) && Distinct(expired)
    requires forall k :: 0 <= k < |expired| ==> !Holds(q, expired[k].addr)
    ensures Sorted(Rearm(q, expired, now)) && Distinct(Rearm(q, expired, now))
    ensures forall x :: x in Rearm(q, expired, now) <==> x in q || IsRearmed(expired, now, x)
    decreases |expired|
  {
    if expired != [] {
      var r := expired[0];
      var q1 := if r.recurring then Insert(q, Rearmed(r, now)) else q;
      if r.recurring { InsertKeeps(q, Rearmed(r, now)); }
      RearmKeeps(q1, expired[1..], now);
      assert expired == [r] + expired[1..];
      forall x
        ensures IsRearmed(expired, now, x) <==> IsRearmed(expired[1..], now, x) || (r.recurring && x == Rearmed(r, now))
      {
      }
    }
  }

  lemma Members<C>(q: seq<Rec<C>>, i: nat)
    requires i <= |q|
    ensures forall r :: r in q <==> r in q[..i] || r in q[i..]
  {
    assert q == q[..i] + q[i..];
  }

  /** listExpiredCb as a whole: what stays was due later or is re-armed at now plus its period; the
      callbacks handed out are those of exactly the due timers, in (deadline, identity) order. */
  lemma ExpireSplits<C>(q: seq<Rec<C>>, now: nat, probe: nat)
    requires Sorted(q) && Distinct(q)
    ensures var i := Cut(q, now, probe);
      && (forall r :: r in q[..i] <==> r in q && r.next <= now)
      && Sorted(q[..i]) && Distinct(q[..i])
      && Sorted(Expire(q, now, probe)) && Distinct(Expire(q, now, probe))
      && (forall x :: x in Expire(q, now, probe) <==>
            (x in q && x.next > now) || IsRearmed(q[..i], now, x))
  {
    CutIsExact(q, now, probe);
    var i := Cut(q, now, probe);
    forall k | 0 <= k < i
      ensures !Holds(q[i..], q[..i][k].addr)
    {
      assert forall m :: 0 <= m < |q[i..]| ==> q[i..][m] == q[i + m];
    }
    RearmKeeps(q[i..], q[..i], now);
    Members(q, i);
    assert forall r :: r in q[..i] ==> r.next <= now;
    assert forall r :: r in q[i..] ==> r.next > now;
  }
}
