/**
  Locking runqueues. Any number of threads lock the queue of a task, or two
  queues at once, or a second queue while holding one. Locks are known by their
  addresses, and every path takes two of them in the order of the addresses or
  without waiting.
 */
module RqLocks {
  import opened Counting

  datatype Pc =
    | Idle
    | Wait(rq: nat, check: bool)             // spinning on one lock, holding none; check: for a task that may move
    | Check(rq: nat)                         // task_rq_lock: does the task still belong here?
    | One(rq: nat)                           // holding one lock
    | First(lo: nat, hi: nat)                // spinning on lo, holding none, hi to follow
    | Second(lo: nat, hi: nat)               // spinning on hi, holding lo
    | Two(rq1: nat, rq2: nat)                // holding both

  datatype State = State(owner: map<nat, nat>, threads: map<nat, Pc>)

  datatype Action =
    | TaskRqLock(t: nat, rq: nat)
    | Recheck(t: nat, same: bool, rq: nat)
    | DoubleRqLock(t: nat, rq1: nat, rq2: nat)
    | LockBalance(t: nat, busiest: nat)      // _double_lock_balance
    | FairLockBalance(t: nat, busiest: nat)  // its preemptible variant
    | Acquire(t: nat)                        // the lock waited for is free
    | Unlock(t: nat, rq: nat)

  function At(s: State, t: nat): Pc {
    if t in s.threads then s.threads[t] else Idle
  }

  function Held(pc: Pc): set<nat> {
    match pc
    case Check(l) => {l}
    case One(l) => {l}
    case Second(lo, _) => {lo}
    case Two(a, b) => {a, b}
    case _ => {}
  }

  function Wanted(pc: Pc): Option<nat> {
    match pc
    case Wait(l, _) => Some(l)
    case First(lo, _) => Some(lo)
    case Second(_, hi) => Some(hi)
    case _ => None
  }

  function Ordered(a: nat, b: nat): Pc {
    if a == b then Wait(a, false) else if a < b then First(a, b) else First(b, a)
  }

  predicate Enabled(s: State, a: Action) {
    var pc := At(s, a.t);
    match a
    case TaskRqLock(_, _) => pc.Idle?
    case Recheck(_, _, _) => pc.Check?
    case DoubleRqLock(_, _, _) => pc.Idle?
    case LockBalance(_, busiest) => pc.One? && busiest != pc.rq
    case FairLockBalance(_, busiest) => pc.One? && busiest != pc.rq
    case Acquire(_) => Wanted(pc).Some? && Wanted(pc).value !in s.owner
    case Unlock(_, rq) => (pc.One? || pc.Two?) && rq in Held(pc)
  }

  function Take(s: State, t: nat, l: nat, pc: Pc): State {
    State(s.owner[l := t], s.threads[t := pc])
  }

  function Drop(s: State, t: nat, l: nat, pc: Pc): State {
    State(s.owner - {l}, s.threads[t := pc])
  }

  function Goto(s: State, t: nat, pc: Pc): State {
    s.(threads := s.threads[t := pc])
  }

  function Apply(s: State, a: Action): State
    requires Enabled(s, a)
  {
    var t, pc := a.t, At(s, a.t);
    match a
    case TaskRqLock(_, rq) => Goto(s, t, Wait(rq, true))
    case Recheck(_, same, rq) => if same then Goto(s, t, One(pc.rq)) else Drop(s, t, pc.rq, Wait(rq, true))
    case DoubleRqLock(_, rq1, rq2) => Goto(s, t, Ordered(rq1, rq2))
    case LockBalance(_, busiest) =>
      if busiest !in s.owner then Take(s, t, busiest, Two(pc.rq, busiest))       // trylock
      else if busiest < pc.rq then Drop(s, t, pc.rq, First(busiest, pc.rq))
      else Goto(s, t, Second(pc.rq, busiest))
    case FairLockBalance(_, busiest) => Drop(s, t, pc.rq, Ordered(pc.rq, busiest))
    case Acquire(_) =>
      Take(s, t, Wanted(pc).value,
           match pc
           case Wait(l, check) => if check then Check(l) else One(l)
           case First(lo, hi) => Second(lo, hi)
           case Second(lo, hi) => Two(lo, hi)
           case _ => pc)
    case Unlock(_, rq) =>
      Drop(s, t, rq, if pc.One? then Idle else One(if rq == pc.rq1 then pc.rq2 else pc.rq1))
  }

  ghost predicate Next(s: State, s': State) {
    exists a :: Enabled(s, a) && s' == Apply(s, a)
  }

  ghost predicate Run(tr: seq<State>) {
    && |tr| > 0
    && tr[0] == State(map[], map[])
    && forall i :: 0 <= i < |tr| - 1 ==> Next(tr[i], tr[i + 1])
  }

  // ----- the invariant

  predicate PcOk(pc: Pc) {
    match pc
    case First(lo, hi) => lo < hi
    case Second(lo, hi) => lo < hi
    case Two(a, b) => a != b
    case _ => true
  }

  /** A lock is owned by the one thread that holds it, and every thread is in order. */
  ghost predicate Inv(s: State) {
    && (forall t: nat, l: nat :: l in Held(At(s, t)) <==> l in s.owner && s.owner[l] == t)
    && (forall t: nat :: PcOk(At(s, t)))
  }

  /** A step takes only a free lock, drops only its own, and keeps count of both. */
  lemma OwnLocks(s: State, a: Action, l: nat)
    requires Inv(s) && Enabled(s, a)
    ensures var s' := Apply(s, a);
      && (l in Held(At(s', a.t)) <==> l in s'.owner && s'.owner[l] == a.t)
      && (l in s.owner && s.owner[l] != a.t ==> l in s'.owner && s'.owner[l] == s.owner[l])
      && (l in s'.owner && s'.owner[l] != a.t ==> l in s.owner && s'.owner[l] == s.owner[l])
  {
    assert PcOk(At(s, a.t));
    assert forall m :: m in Held(At(s, a.t)) <==> m in s.owner && s.owner[m] == a.t;
  }

  lemma OwnPc(s: State, a: Action)
    requires PcOk(At(s, a.t)) && Enabled(s, a)
    ensures PcOk(At(Apply(s, a), a.t))
  {
  }

  lemma InvStep(s: State, a: Action)
    requires Inv(s) && Enabled(s, a)
    ensures Inv(Apply(s, a))
  {
    var s' := Apply(s, a);
    OwnPc(s, a);
    forall t: nat
      ensures PcOk(At(s', t))
    {
      assert PcOk(At(s, t));
    }
    forall t: nat, l: nat
      ensures l in Held(At(s', t)) <==> l in s'.owner && s'.owner[l] == t
    {
      OwnLocks(s, a, l);
      if t != a.t {
        assert At(s', t) == At(s, t);
      }
    }
  }

  lemma {:induction false} InvRun(tr: seq<State>, i: nat)
    requires Run(tr) && i < |tr|
    ensures Inv(tr[i])
  {
    if i > 0 {
      InvRun(tr, i - 1);
      assert Next(tr[i - 1], tr[i - 1 + 1]);
      var a :| Enabled(tr[i - 1], a) && tr[i] == Apply(tr[i - 1], a);
      InvStep(tr[i - 1], a);
    }
  }

  // ----- the theorems

  /** A thread that waits for a lock holds only locks of smaller address. */
  lemma WaitsUpwards(tr: seq<State>, i: nat, t: nat, l: nat)
    requires Run(tr) && i < |tr| && Wanted(At(tr[i], t)).Some? && l in Held(At(tr[i], t))
    ensures l < Wanted(At(tr[i], t)).value
  {
    InvRun(tr, i);
    assert PcOk(At(tr[i], t));
  }

  // ----- what is locked in the end

  /** The locks a thread will hold once it waits no more. */
  function Aims(pc: Pc): set<nat> {
    match pc
    case Idle => {}
    case Wait(l, _) => {l}
    case Check(l) => {l}
    case One(l) => {l}
    case First(lo, hi) => {lo, hi}
    case Second(lo, hi) => {lo, hi}
    case Two(a, b) => {a, b}
  }

  /**
    task_rq_lock aims at one lock, double_rq_lock at its two, _double_lock_balance at the second one besides that held;
    waiting changes no aim, and unlocking gives up the one lock.
   */
  lemma AimsStep(s: State, a: Action)
    requires Enabled(s, a) && PcOk(At(s, a.t))
    ensures var pc, pc' := At(s, a.t), At(Apply(s, a), a.t);
      match a
      case TaskRqLock(_, rq) => Aims(pc') == {rq}
      case Recheck(_, same, rq) => Aims(pc') == if same then Aims(pc) else {rq}
      case DoubleRqLock(_, rq1, rq2) => Aims(pc') == {rq1, rq2}
      case LockBalance(_, busiest) => Aims(pc') == Aims(pc) + {busiest}
      case FairLockBalance(_, busiest) => Aims(pc') == Aims(pc) + {busiest}
      case Acquire(_) => Aims(pc') == Aims(pc)
      case Unlock(_, rq) => Aims(pc') == Aims(pc) - {rq}
    ensures forall u :: u != a.t ==> At(Apply(s, a), u) == At(s, u)
  {
  }

  /** Inside task_rq_lock: waiting for the queue of a task, or about to look whether the task is still there. */
  predicate InTaskRqLock(pc: Pc) {
    (pc.Wait? && pc.check) || pc.Check?
  }

  /** task_rq_lock is left only with a look that finds the task still on the queue; else the queue is given up again. */
  lemma OnlyRecheckLeaves(s: State, a: Action)
    requires Enabled(s, a)
    ensures var pc, pc', s' := At(s, a.t), At(Apply(s, a), a.t), Apply(s, a);
      && (InTaskRqLock(pc') <==> a.TaskRqLock? || (a.Recheck? && !a.same) || (a.Acquire? && InTaskRqLock(pc)))
      && (a.Recheck? && !a.same ==> pc.Check? && pc.rq !in s'.owner)
  {
  }

  /** What a thread can do: wait for its lock, look, lock more, or unlock what it holds. */
  lemma CanGoOnWith(s: State, t: nat, rq: nat, rq2: nat)
    ensures var pc := At(s, t);
      && (pc.Idle? ==> Enabled(s, TaskRqLock(t, rq)) && Enabled(s, DoubleRqLock(t, rq, rq2)))
      && (pc.Check? ==> Enabled(s, Recheck(t, true, rq)) && Enabled(s, Recheck(t, false, rq)))
      && (pc.One? ==> Enabled(s, Unlock(t, pc.rq)))
      && (pc.One? && rq != pc.rq ==> Enabled(s, LockBalance(t, rq)) && Enabled(s, FairLockBalance(t, rq)))
      && (pc.Two? ==> Enabled(s, Unlock(t, pc.rq1)) && Enabled(s, Unlock(t, pc.rq2)))
      && (Wanted(pc).Some? ==> (Enabled(s, Acquire(t)) <==> Wanted(pc).value !in s.owner))
  {
  }

  /** Who waits no more owns exactly the locks it aimed at; who waits lacks the one it waits for. */
  lemma AimsMet(tr: seq<State>, i: nat, t: nat)
    requires Run(tr) && i < |tr|
    ensures var s, pc := tr[i], At(tr[i], t);
      && (Wanted(pc) == None ==> forall l :: l in Aims(pc) <==> l in s.owner && s.owner[l] == t)
      && (Wanted(pc).Some? ==> Wanted(pc).value in Aims(pc) && (Wanted(pc).value in s.owner ==> s.owner[Wanted(pc).value] != t))
  {
    InvRun(tr, i);
    assert PcOk(At(tr[i], t));
    assert forall l :: l in Held(At(tr[i], t)) <==> l in tr[i].owner && tr[i].owner[l] == t;
  }

  /** `t` waits for a lock that `u` owns. */
  predicate WaitsFor(s: State, t: nat, u: nat) {
    var w := Wanted(At(s, t));
    w.Some? && w.value in s.owner && s.owner[w.value] == u
  }

  lemma {:induction false} ChainClimbs(s: State, chain: seq<nat>, k: nat)
    requires Inv(s) && k + 1 < |chain|
    requires forall j :: 0 <= j < |chain| - 1 ==> WaitsFor(s, chain[j], chain[j + 1])
    requires Wanted(At(s, chain[|chain| - 1])).Some?
    ensures Wanted(At(s, chain[0])).Some? && Wanted(At(s, chain[k + 1])).Some?
    ensures Wanted(At(s, chain[0])).value < Wanted(At(s, chain[k + 1])).value
  {
    if k > 0 {
      ChainClimbs(s, chain, k - 1);
    }
    assert WaitsFor(s, chain[k], chain[k + 1]);
    assert k + 1 < |chain| - 1 ==> WaitsFor(s, chain[k + 1], chain[k + 2]);
    assert PcOk(At(s, chain[k + 1]));
  }

  /** No reachable state has a circle of threads each waiting for a lock the next one owns. */
  lemma NoDeadlock(tr: seq<State>, i: nat, circle: seq<nat>)
    requires Run(tr) && i < |tr| && |circle| > 0
    ensures !((forall j :: 0 <= j < |circle| - 1 ==> WaitsFor(tr[i], circle[j], circle[j + 1]))
              && WaitsFor(tr[i], circle[|circle| - 1], circle[0]))
  {
    var s := tr[i];
    InvRun(tr, i);
    if (forall j :: 0 <= j < |circle| - 1 ==> WaitsFor(s, circle[j], circle[j + 1]))
      && WaitsFor(s, circle[|circle| - 1], circle[0])
    {
      var chain := circle + [circle[0]];
      forall j | 0 <= j < |chain| - 1
        ensures WaitsFor(s, chain[j], chain[j + 1])
      {
        assert j < |circle| - 1 ==> WaitsFor(s, circle[j], circle[j + 1]);
      }
      assert WaitsFor(s, chain[0], chain[1]);
      ChainClimbs(s, chain, |circle| - 1);
    }
  }

  lemma {:induction false} HighestWaiter(s: State, ts: set<nat>) returns (t: nat)
    requires ts != {} && forall u :: u in ts ==> Wanted(At(s, u)).Some?
    ensures t in ts && forall u :: u in ts ==> Wanted(At(s, u)).value <= Wanted(At(s, t)).value
  {
    var u :| u in ts;
    if ts == {u} {
      t := u;
    } else {
      var v := HighestWaiter(s, ts - {u});
      t := if Wanted(At(s, u)).value <= Wanted(At(s, v)).value then v else u;
    }
  }

  /** `u` waits, and its lock is free or owned by a thread that does not wait. */
  predicate CanGoOn(s: State, u: nat) {
    var w := Wanted(At(s, u));
    w.Some? && (w.value in s.owner ==> Wanted(At(s, s.owner[w.value])).None?)
  }

  lemma HighestCanGoOn(s: State, u: nat)
    requires Inv(s) && Wanted(At(s, u)).Some?
    requires forall v :: Wanted(At(s, v)).Some? ==> Wanted(At(s, v)).value <= Wanted(At(s, u)).value
    ensures CanGoOn(s, u)
  {
    var w := Wanted(At(s, u)).value;
    if w in s.owner {
      var v := s.owner[w];
      assert w in Held(At(s, v)) && PcOk(At(s, v));
    }
  }

  /** While some thread waits, some waiting thread's lock is free or owned by a thread that does not wait. */
  lemma SomeoneCanGoOn(tr: seq<State>, i: nat, t: nat)
    requires Run(tr) && i < |tr| && Wanted(At(tr[i], t)).Some?
    ensures exists u :: CanGoOn(tr[i], u)
  {
    InvRun(tr, i);
    var waiting := set u | u in tr[i].threads && Wanted(At(tr[i], u)).Some?;
    assert t in waiting;
    var u := HighestWaiter(tr[i], waiting);
    forall v | Wanted(At(tr[i], v)).Some?
      ensures Wanted(At(tr[i], v)).value <= Wanted(At(tr[i], u)).value
    {
      assert v in waiting;
    }
    HighestCanGoOn(tr[i], u);
  }
}
