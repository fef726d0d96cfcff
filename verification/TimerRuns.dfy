/** The life of timers over whole runs of addTimer, cancel and listExpiredCb. */
module TimerRuns {
  import opened Prelude
  import opened Timers

  /** A Timer object and its history: when it was created, at which times its callback was handed out,
      how often cancel succeeded and how many hand-outs there had been by then. */
  datatype Life = Life(rec: Rec<nat>, live: bool, created: nat, handed: seq<nat>, cancels: nat, handedAtCancel: nat)

  datatype World = World(queue: seq<Rec<nat>>, lives: map<nat, Life>)

  datatype Op =
    | Add(addr: nat, ms: nat, cb: nat, recurring: bool, now: nat)
    | Cancel(addr: nat)
    | List(now: nat, probe: nat)

  /** One callback handed out, and the object's fields afterwards. */
  function HandOutOne(lives: map<nat, Life>, r: Rec<nat>, now: nat): map<nat, Life> {
    if r.addr !in lives then lives
    else
      var l := lives[r.addr];
      lives[r.addr := l.(rec := if r.recurring then Rearmed(r, now) else r, live := r.recurring, handed := l.handed + [now])]
  }

  function HandOut(lives: map<nat, Life>, expired: seq<Rec<nat>>, now: nat): map<nat, Life> {
    if expired == [] then lives else HandOut(HandOutOne(lives, expired[0], now), expired[1..], now)
  }

  function Next(w: World, op: Op): World {
    match op
    case Add(addr, ms, cb, recurring, now) =>
      if addr in w.lives then w   // no two timers share an address
      else
        var r := Rec(addr, ms, now + ms, cb, recurring);
        World(Insert(w.queue, r), w.lives[addr := Life(r, true, now, [], 0, 0)])
    case Cancel(addr) =>
      if addr !in w.lives || !w.lives[addr].live then w
      else
        var l := w.lives[addr];
        World(Erase(w.queue, l.rec.next, addr),
              w.lives[addr := l.(live := false, cancels := l.cancels + 1, handedAtCancel := |l.handed|)])
    case List(now, probe) =>
      World(Expire(w.queue, now, probe), HandOut(w.lives, w.queue[..Cut(w.queue, now, probe)], now))
  }

  function Run(w: World, ops: seq<Op>): World
    decreases |ops|
  {
    if ops == [] then w else Run(Next(w, ops[0]), ops[1..])
  }

  const START := World([], map[])

  /** The operation that created the timer at address `a`: the first one that adds a timer there. */
  function AddedBy(ops: seq<Op>, a: nat): Option<Op> {
    if ops == [] then None
    else if ops[0].Add? && ops[0].addr == a then Some(ops[0])
    else AddedBy(ops[1..], a)
  }

  // ----------------------------------------------------------------- the invariant

  /** `k` periods of `ms`. */
  function Periods(k: nat, ms: nat): nat {
    if k == 0 then 0 else Periods(k - 1, ms) + ms
  }

  lemma {:induction false} PeriodsMultiply(k: nat, ms: nat)
    ensures Periods(k, ms) == k * ms
  {
    if k > 0 {
      PeriodsMultiply(k - 1, ms);
    }
  }

  /** The time from which the current period runs. */
  function Since(l: Life): nat {
    if l.handed == [] then l.created else l.handed[|l.handed| - 1]
  }

  ghost predicate HistoryOk(l: Life) {
    var r := l.rec;
    && (!r.recurring ==> |l.handed| <= 1 && (l.live ==> l.handed == []))
    && (l.live ==> l.cancels == 0)
    && l.cancels <= 1
    && (l.cancels == 1 ==> |l.handed| == l.handedAtCancel)
    && (forall k :: 0 <= k < |l.handed| ==> l.handed[k] >= l.created + Periods(k + 1, r.ms))
    && (l.live ==> r.next >= l.created + Periods(|l.handed| + 1, r.ms))
    && (l.live ==> r.next == Since(l) + r.ms)
  }

  /** `bag` is everything that still carries a callback: the set, plus timers taken out by an expiry in progress. */
  ghost predicate BagOk(bag: seq<Rec<nat>>, lives: map<nat, Life>) {
    && Distinct(bag)
    && (forall r :: r in bag ==> r.addr in lives && lives[r.addr].live && lives[r.addr].rec == r)
    && (forall a :: a in lives && lives[a].live ==> lives[a].rec in bag && lives[a].rec.addr == a)
  }

  ghost predicate AllHistories(lives: map<nat, Life>) {
    forall a :: a in lives ==> HistoryOk(lives[a])
  }

  ghost predicate Inv(w: World) {
    && Sorted(w.queue)
    && BagOk(w.queue, w.lives)
    && AllHistories(w.lives)
  }

  lemma AddKeeps(w: World, addr: nat, ms: nat, cb: nat, recurring: bool, now: nat)
    requires Inv(w)
    ensures Inv(Next(w, Add(addr, ms, cb, recurring, now)))
  {
    if addr !in w.lives {
      var r := Rec(addr, ms, now + ms, cb, recurring);
      var l := Life(r, true, now, [], 0, 0);
      NewLifeOk(r, now);
      HistoriesAdd(w.lives, addr, l);
      NewBag(w, l);
      KeepsAt(Next(w, Add(addr, ms, cb, recurring, now)), Insert(w.queue, r), w.lives[addr := l]);
    }
  }

  lemma KeepsAt(w': World, q: seq<Rec<nat>>, lives: map<nat, Life>)
    requires Sorted(q) && BagOk(q, lives) && AllHistories(lives) && w' == World(q, lives)
    ensures Inv(w')
  {
  }

  lemma NewBag(w: World, l: Life)
    requires Sorted(w.queue) && BagOk(w.queue, w.lives) && l.rec.addr !in w.lives && l.live
    ensures Sorted(Insert(w.queue, l.rec)) && BagOk(Insert(w.queue, l.rec), w.lives[l.rec.addr := l])
  {
    NotHeld(w, l.rec.addr);
    InsertKeeps(w.queue, l.rec);
    BagAdds(w.queue, Insert(w.queue, l.rec), w.lives, l);
  }

  lemma NotHeld(w: World, addr: nat)
    requires BagOk(w.queue, w.lives) && addr !in w.lives
    ensures !Holds(w.queue, addr) && forall x :: x in w.queue ==> x.addr != addr
  {
  }

  lemma HistoriesAdd(lives: map<nat, Life>, a: nat, l: Life)
    requires AllHistories(lives) && HistoryOk(l)
    ensures AllHistories(lives[a := l])
  {
  }

  lemma NewLifeOk(r: Rec<nat>, now: nat)
    requires r.next == now + r.ms
    ensures HistoryOk(Life(r, true, now, [], 0, 0))
  {
    assert Periods(1, r.ms) == r.ms;
  }

  /** A bag that gained one timer fits the lives that gained it. */
  lemma BagAdds(bag: seq<Rec<nat>>, bag': seq<Rec<nat>>, lives: map<nat, Life>, l: Life)
    requires BagOk(bag, lives) && Distinct(bag') && l.live
    requires forall x :: x in bag' <==> x in bag || x == l.rec
    requires forall x :: x in bag ==> x.addr != l.rec.addr
    requires l.rec.addr in lives ==> !lives[l.rec.addr].live || lives[l.rec.addr].rec !in bag
    ensures BagOk(bag', lives[l.rec.addr := l])
  {
  }

  /** A bag that lost one timer fits the lives in which that timer died. */
  lemma BagDrops(bag: seq<Rec<nat>>, bag': seq<Rec<nat>>, lives: map<nat, Life>, l: Life)
    requires BagOk(bag, lives) && Distinct(bag') && !l.live
    requires forall x :: x in bag' <==> x in bag && x.addr != l.rec.addr
    ensures BagOk(bag', lives[l.rec.addr := l])
  {
  }

  lemma CancelKeeps(w: World, addr: nat)
    requires Inv(w)
    ensures Inv(Next(w, Cancel(addr)))
  {
    if addr in w.lives && w.lives[addr].live {
      var l := w.lives[addr];
      var l' := l.(live := false, cancels := l.cancels + 1, handedAtCancel := |l.handed|);
      OldBag(w, addr, l');
      HistoriesAdd(w.lives, addr, l');
      KeepsAt(Next(w, Cancel(addr)), Erase(w.queue, l.rec.next, addr), w.lives[addr := l']);
    }
  }

  lemma OldBag(w: World, addr: nat, l: Life)
    requires Sorted(w.queue) && BagOk(w.queue, w.lives) && addr in w.lives && w.lives[addr].live
    requires l.rec == w.lives[addr].rec && !l.live
    ensures var q := Erase(w.queue, l.rec.next, addr); Sorted(q) && BagOk(q, w.lives[addr := l])
  {
    var i :| 0 <= i < |w.queue| && w.queue[i] == l.rec;
    EraseKeeps(w.queue, i);
    var q := Erase(w.queue, l.rec.next, addr);
    MemberAddresses(q, addr);
    forall x | x in w.queue && x.addr == addr
      ensures x == l.rec
    {
    }
    BagDrops(w.queue, q, w.lives, l);
  }

  lemma HandOutOneKeeps(lives: map<nat, Life>, r: Rec<nat>, now: nat)
    requires AllHistories(lives)
    requires r.addr in lives && lives[r.addr].live && lives[r.addr].rec == r && r.next <= now
    ensures AllHistories(HandOutOne(lives, r, now))
  {
    var l := lives[r.addr];
    assert Periods(|l.handed| + 2, r.ms) == Periods(|l.handed| + 1, r.ms) + r.ms;
    HistoriesAdd(lives, r.addr, HandOutOne(lives, r, now)[r.addr]);
  }

  lemma MemberAddresses(q: seq<Rec<nat>>, addr: nat)
    ensures Holds(q, addr) <==> exists r :: r in q && r.addr == addr
  {
    if Holds(q, addr) {
      var i :| 0 <= i < |q| && q[i].addr == addr;
      assert q[i] in q;
    }
    if exists r :: r in q && r.addr == addr {
      var r :| r in q && r.addr == addr;
      var i :| 0 <= i < |q| && q[i] == r;
      assert q[i].addr == addr;
    }
  }

  lemma TailBag(r: Rec<nat>, bag: seq<Rec<nat>>)
    requires Distinct([r] + bag)
    ensures Distinct(bag) && forall x :: x in bag ==> x.addr != r.addr
  {
    var all := [r] + bag;
    assert forall k :: 0 <= k < |bag| ==> bag[k] == all[k + 1];
    assert all[0] == r;
  }

  /** Putting a timer with a fresh address into the set part of a bag. */
  lemma BagInsert(rest: seq<Rec<nat>>, q: seq<Rec<nat>>, x: Rec<nat>)
    requires Distinct(rest + q) && Sorted(q) && Distinct(q)
    requires forall y :: y in rest + q ==> y.addr != x.addr
    ensures Distinct(rest + Insert(q, x))
    ensures forall y :: y in rest + Insert(q, x) <==> y in rest + q || y == x
  {
    var i := LowerBound(q, x.next, x.addr);
    var bag := rest + q;
    var bag' := rest + Insert(q, x);
    assert bag' == bag[..|rest| + i] + [x] + bag[|rest| + i..];
    DistinctInsert(bag, |rest| + i, x);
  }

  lemma DistinctInsert(bag: seq<Rec<nat>>, i: nat, x: Rec<nat>)
    requires Distinct(bag) && i <= |bag|
    requires forall y :: y in bag ==> y.addr != x.addr
    ensures Distinct(bag[..i] + [x] + bag[i..])
    ensures forall y :: y in bag[..i] + [x] + bag[i..] <==> y in bag || y == x
  {
    var s := bag[..i] + [x] + bag[i..];
    Members(bag, i);
    forall j, k | 0 <= j < k < |s|
      ensures s[j].addr != s[k].addr
    {
      if j != i && k != i {
        assert s[j] == bag[if j < i then j else j - 1] && s[k] == bag[if k < i then k else k - 1];
      } else if j == i {
        assert s[k] == bag[k - 1];
      } else {
        assert s[j] == bag[j];
      }
    }
  }

  lemma FreshAddress(r: Rec<nat>, rest: seq<Rec<nat>>, q: seq<Rec<nat>>)
    requires Distinct([r] + (rest + q))
    ensures !Holds(q, r.addr) && r in [r] + (rest + q)
  {
    TailBag(r, rest + q);
    assert ([r] + (rest + q))[0] == r;
    forall k | 0 <= k < |q|
      ensures q[k].addr != r.addr
    {
      assert (rest + q)[|rest| + k] == q[k];
    }
  }

  lemma StepBag(r: Rec<nat>, rest: seq<Rec<nat>>, q: seq<Rec<nat>>, lives: map<nat, Life>, now: nat)
    requires Sorted(q) && Distinct(q) && BagOk([r] + (rest + q), lives)
    ensures var q1 := if r.recurring then Insert(q, Rearmed(r, now)) else q;
      BagOk(rest + q1, HandOutOne(lives, r, now))
  {
    var bag := rest + q;
    TailBag(r, bag);
    assert ([r] + bag)[0] == r;
    var after := HandOutOne(lives, r, now);
    var l := after[r.addr];
    BagDrops([r] + bag, bag, lives, l.(live := false, rec := r));
    if r.recurring {
      BagInsert(rest, q, Rearmed(r, now));
      BagAdds(bag, rest + Insert(q, Rearmed(r, now)), lives[r.addr := l.(live := false, rec := r)], l);
      assert lives[r.addr := l.(live := false, rec := r)][r.addr := l] == after;
    }
  }

  /** What the expiry loop keeps: `expired` is still to be handed out, `q` is the set so far. */
  lemma {:induction false} ExpiryKeeps(q: seq<Rec<nat>>, expired: seq<Rec<nat>>, lives: map<nat, Life>, now: nat)
    requires Sorted(q) && Distinct(q) && BagOk(expired + q, lives)
    requires forall r :: r in expired ==> r.next <= now
    requires AllHistories(lives)
    ensures var s := Rearm(q, expired, now);
      var ls := HandOut(lives, expired, now);
      && Sorted(s) && BagOk(s, ls) && AllHistories(ls)
    decreases |expired|
  {
    if expired == [] {
      assert expired + q == q;
    } else {
      var r := expired[0];
      var rest := expired[1..];
      assert expired + q == [r] + (rest + q);
      FreshAddress(r, rest, q);
      var q1 := if r.recurring then Insert(q, Rearmed(r, now)) else q;
      if r.recurring { InsertKeeps(q, Rearmed(r, now)); }
      HandOutOneKeeps(lives, r, now);
      StepBag(r, rest, q, lives, now);
      ExpiryKeeps(q1, rest, HandOutOne(lives, r, now), now);
    }
  }

  lemma ListKeeps(w: World, now: nat, probe: nat)
    requires Inv(w)
    ensures Inv(Next(w, List(now, probe)))
  {
    var i := Cut(w.queue, now, probe);
    CutIsExact(w.queue, now, probe);
    assert w.queue[..i] + w.queue[i..] == w.queue;
    ExpiryKeeps(w.queue[i..], w.queue[..i], w.lives, now);
  }

  /** A pass over the expired timers adds a hand-out to each of them and to no other. */
  lemma {:induction false} HandedOut(lives: map<nat, Life>, expired: seq<Rec<nat>>, now: nat, a: nat)
    requires Distinct(expired) && a in lives
    ensures a in HandOut(lives, expired, now)
    ensures HandOut(lives, expired, now)[a].handed == lives[a].handed + if Holds(expired, a) then [now] else []
    decreases |expired|
  {
    if expired != [] {
      var r := expired[0];
      HandedOut(HandOutOne(lives, r, now), expired[1..], now, a);
      HoldsTail(expired, a);
    }
  }

  lemma HoldsTail(q: seq<Rec<nat>>, a: nat)
    requires Distinct(q) && q != []
    ensures Distinct(q[1..])
    ensures Holds(q, a) <==> q[0].addr == a || Holds(q[1..], a)
    ensures !(q[0].addr == a && Holds(q[1..], a))
  {
    assert forall k :: 0 <= k < |q[1..]| ==> q[1..][k] == q[k + 1];
    if Holds(q, a) {
      var k :| 0 <= k < |q| && q[k].addr == a;
      if k > 0 { assert q[1..][k - 1].addr == a; }
    }
  }

  /** In every run, listing at `now` hands out exactly the live timers that are due by then, each once. */
  lemma ListHandsOutDue(ops: seq<Op>, now: nat, probe: nat, a: nat)
    ensures var w := Run(START, ops);
      a in w.lives ==>
      var l := w.lives[a];
      a in Next(w, List(now, probe)).lives
      && Next(w, List(now, probe)).lives[a].handed == l.handed + if l.live && l.rec.next <= now then [now] else []
  {
    var w := Run(START, ops);
    RunKeeps(START, ops);
    if a in w.lives {
      var due := w.queue[..Cut(w.queue, now, probe)];
      ExpireSplits(w.queue, now, probe);
      HandedOut(w.lives, due, now, a);
      MemberAddresses(due, a);
    }
  }

  lemma {:induction false} RunKeeps(w: World, ops: seq<Op>)
    requires Inv(w)
    ensures Inv(Run(w, ops))
    decreases |ops|
  {
    if ops != [] {
      StepKeeps(w, ops[0]);
      RunKeeps(Next(w, ops[0]), ops[1..]);
    }
  }

  /** `l` is the timer that `op` created. */
  predicate CreatedBy(l: Life, op: Op) {
    op.Add? && l.created == op.now && l.rec.addr == op.addr && l.rec.ms == op.ms && l.rec.cb == op.cb && l.rec.recurring == op.recurring
  }

  lemma {:induction false} HandOutSame(lives: map<nat, Life>, expired: seq<Rec<nat>>, now: nat, a: nat)
    requires forall r :: r in expired ==> r.addr in lives && lives[r.addr].rec == r
    requires Distinct(expired)
    ensures a in HandOut(lives, expired, now) <==> a in lives
    ensures a in lives ==>
      var l, l' := lives[a], HandOut(lives, expired, now)[a];
      l'.created == l.created && l'.rec == l.rec.(next := l'.rec.next)
    decreases |expired|
  {
    if expired != [] {
      HoldsTail(expired, a);
      var rest := expired[1..];
      forall r | r in rest
        ensures r.addr in HandOutOne(lives, expired[0], now) && HandOutOne(lives, expired[0], now)[r.addr].rec == r
      {
        var k :| 0 <= k < |rest| && rest[k] == r;
        assert expired[k + 1] == r;
      }
      HandOutSame(HandOutOne(lives, expired[0], now), rest, now, a);
    }
  }

  lemma StepSame(w: World, op: Op, a: nat)
    requires Inv(w)
    ensures a in Next(w, op).lives <==> a in w.lives || (op.Add? && op.addr == a)
    ensures a in w.lives ==>
      var l, l' := w.lives[a], Next(w, op).lives[a]; l'.created == l.created && l'.rec == l.rec.(next := l'.rec.next)
    ensures a !in w.lives && op.Add? && op.addr == a ==> CreatedBy(Next(w, op).lives[a], op)
  {
    if op.List? {
      var due := w.queue[..Cut(w.queue, op.now, op.probe)];
      ExpireSplits(w.queue, op.now, op.probe);
      HandOutSame(w.lives, due, op.now, a);
    }
  }

  lemma StepKeeps(w: World, op: Op)
    requires Inv(w)
    ensures Inv(Next(w, op))
  {
    match op
    case Add(addr, ms, cb, recurring, now) => AddKeeps(w, addr, ms, cb, recurring, now);
    case Cancel(addr) => CancelKeeps(w, addr);
    case List(now, probe) => ListKeeps(w, now, probe);
  }

  lemma {:induction false} RunCreates(w: World, ops: seq<Op>, a: nat)
    requires Inv(w)
    ensures a in Run(w, ops).lives <==> a in w.lives || AddedBy(ops, a).Some?
    ensures a in w.lives ==>
      var l, l' := w.lives[a], Run(w, ops).lives[a]; l'.created == l.created && l'.rec == l.rec.(next := l'.rec.next)
    ensures a !in w.lives && AddedBy(ops, a).Some? ==> CreatedBy(Run(w, ops).lives[a], AddedBy(ops, a).value)
    decreases |ops|
  {
    if ops != [] {
      StepKeeps(w, ops[0]);
      StepSame(w, ops[0], a);
      RunCreates(Next(w, ops[0]), ops[1..], a);
    }
  }

  /** In every run there are exactly the timers that were added, each with the period, callback and kind it was added
      with, created when it was first added. */
  lemma TimersAreAsAdded(ops: seq<Op>, a: nat)
    ensures a in Run(START, ops).lives <==> AddedBy(ops, a).Some?
    ensures AddedBy(ops, a).Some? ==> CreatedBy(Run(START, ops).lives[a], AddedBy(ops, a).value)
  {
    RunCreates(START, ops, a);
  }

  /** In every run a cancel takes the timer out of the set, and succeeds exactly if it was there. */
  lemma CancelTakesOut(ops: seq<Op>, a: nat)
    ensures var w := Run(START, ops);
      var w' := Next(w, Cancel(a));
      !Holds(w'.queue, a)
      && (a in w.lives ==> a in w'.lives && w'.lives[a].cancels == w.lives[a].cancels + if Holds(w.queue, a) then 1 else 0)
  {
    RunKeeps(START, ops);
    var w := Run(START, ops);
    CancelKeeps(w, a);
    MemberAddresses(w.queue, a);
    MemberAddresses(Next(w, Cancel(a)).queue, a);
  }

  /** In every run: a timer is in the set iff it still has its callback; cancel succeeded at most once and
      nothing was handed out afterwards; a one-shot was handed out at most once; the k-th hand-out of a
      timer came no earlier than k periods after its creation; a timer in the set is due exactly one period after
      its creation or its last hand-out. */
  lemma EveryRun(ops: seq<Op>, a: nat)
    ensures var w := Run(START, ops);
      a in w.lives ==>
      var l := w.lives[a];
      && (Holds(w.queue, a) <==> l.live)
      && l.cancels <= 1
      && (l.cancels == 1 ==> !l.live && |l.handed| == l.handedAtCancel)
      && (!l.rec.recurring ==> |l.handed| <= 1)
      && (forall k :: 0 <= k < |l.handed| ==> l.handed[k] >= l.created + Periods(k + 1, l.rec.ms))
      && (l.live ==> l.rec in w.queue && l.rec.next == Since(l) + l.rec.ms)
  {
    RunKeeps(START, ops);
    MemberAddresses(Run(START, ops).queue, a);
  }
}
