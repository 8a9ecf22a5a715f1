/**
  Wake-ups of the FIFO device when nobody is interrupted and giving the mutex
  back and going to sleep is one atomic step. Then every thread in `Queued` is
  already in its semaphore's wait list, so a signal is handed to one of them at
  once. Every such run is a run of the unrestricted machine, so all that is
  proved there holds here.
 */
module FifoWakeup {
  import opened Counting
  import opened Fifo

  /** Thread `w` sleeps on queue `q`. */
  predicate Sleeps(s: State, w: nat, q: Side) {
    At(s, w).Queued? && SideOf(At(s, w).c) == q
  }

  function Sleepers(s: State, q: Side): set<nat> {
    set t | t in s.threads && Sleeps(s, t, q)
  }

  /** An uninterrupted step. A signal goes to a sleeper `w`, if there is one. */
  ghost predicate CalmStep(s: State, a: Action, w: nat, s': State) {
    && !a.Interrupt?
    && Enabled(s, a)
    && var m := Apply(s, a);
       var o := PlanOf(s, a).op;
       if o.PutToken? && exists v :: Sleeps(m, v, o.q)
       then Sleeps(m, w, o.q) && Enabled(m, Go(w)) && s' == Apply(m, Go(w))
       else s' == m
  }

  ghost predicate CalmNext(s: State, s': State) {
    exists a, w :: CalmStep(s, a, w, s')
  }

  ghost predicate CalmRun(tr: seq<State>) {
    && |tr| > 0
    && tr[0] == Init()
    && forall i :: 0 <= i < |tr| - 1 ==> CalmNext(tr[i], tr[i + 1])
  }

  // ----- the invariant

  /** Some thread is in the middle of a broadcast on `q`. */
  ghost predicate Waking(s: State, q: Side) {
    exists t :: At(s, t).Wake? && At(s, t).q == q
  }

  /** Unless a broadcast on `q` is under way, every sleeper on `q` still has its reason to sleep. */
  ghost predicate Settled(s: State, q: Side) {
    Waking(s, q) || forall t :: Sleeps(s, t, q) ==> Blocked(s.d, At(s, t).c)
  }

  predicate Interrupted(pc: Pc) {
    pc.Undo? || pc.Undoing? || pc.Rollback? || pc.RollingBack?
  }

  /** All of the invariant but that both semaphores are at zero. */
  ghost predicate AllButTokens(s: State) {
    && Inv(s)
    && (forall t :: !Interrupted(At(s, t)))
    && s.prod.waiting >= Count(s.threads, Signalled(Producers))
    && s.cons.waiting >= Count(s.threads, Signalled(Consumers))
    && Settled(s, Producers) && Settled(s, Consumers)
  }

  ghost predicate CalmInv(s: State) {
    AllButTokens(s) && s.prod.tokens == 0 && s.cons.tokens == 0
  }

  // ----- what the mutex gives a thread that holds it

  lemma OnlyHolder(s: State, t: nat, u: nat)
    requires Exclusive(s) && Is(Holding, At(s, t)) && Is(Holding, At(s, u))
    ensures t == u
  {
    OnlyOne(Those(s.threads, Holding), t, u);
  }

  /** The half-done signals are the holder's own. */
  lemma OnlySignaller(s: State, t: nat, k: Kind)
    requires Exclusive(s) && Is(Holding, At(s, t)) && (k.Decremented? || k.Signalled?)
    ensures Count(s.threads, k) == Bit(Is(k, At(s, t)))
  {
    var those := Those(s.threads, k);
    forall u | u in those
      ensures u == t
    {
      OnlyHolder(s, t, u);
    }
    assert those == if Is(k, At(s, t)) then {t} else {};
  }

  /** Without interruptions, a thread registered on `q` sleeps there. */
  lemma SomeSleeper(s: State, q: Side)
    requires forall t :: !Interrupted(At(s, t))
    ensures Count(s.threads, OnQueue(q)) > 0 <==> exists t :: Sleeps(s, t, q)
  {
    var those := Those(s.threads, OnQueue(q));
    if those != {} {
      var t :| t in those;
      assert !Interrupted(At(s, t)) && Sleeps(s, t, q);
    }
    if t :| Sleeps(s, t, q) {
      assert t in those;
    }
  }

  // ----- one step of the unrestricted machine

  /** Only a step into a broadcast on `q` can take away a sleeper's reason to sleep on `q`. */
  lemma OnlyBroadcastsUnblock(s: State, a: Action, c: Call)
    requires Inv(s) && Enabled(s, a) && !a.Interrupt? && !Interrupted(At(s, a.t))
    requires Blocked(s.d, c) && !Blocked(Apply(s, a).d, c)
    ensures var pc := PlanOf(s, a).pc; pc.Wake? && pc.q == SideOf(c)
  {
    var pc := At(s, a.t);
    assert ThreadOk(s.d, a.t, pc);
    if pc.Critical? && pc.c.Release? {
      assert pc.c.h in Counted(s.d.handles, pc.c.reader);
    }
  }

  /** A thread outside a broadcast neither signals nor takes registrations back. */
  lemma QuietStep(s: State, a: Action, q: Side)
    requires Enabled(s, a) && !a.Interrupt? && !Interrupted(At(s, a.t)) && !At(s, a.t).Wake?
    ensures WaitingChange(PlanOf(s, a).op, q) >= 0 && !PlanOf(s, a).op.PutToken?
    ensures !Is(Signalled(q), PlanOf(s, a).pc) && !Interrupted(PlanOf(s, a).pc)
  {
  }

  /** The waiter counts stay above the signals already sent for them. */
  lemma KeepsCounts(s: State, a: Action, q: Side)
    requires Inv(s) && Enabled(s, a) && !a.Interrupt? && !Interrupted(At(s, a.t))
    requires Q(s, q).waiting >= Count(s.threads, Signalled(q))
    ensures Q(Apply(s, a), q).waiting >= Count(Apply(s, a).threads, Signalled(q))
  {
    CountGoto(s, a.t, PlanOf(s, a).pc, Signalled(q));
    if At(s, a.t).Wake? {
      OnlySignaller(s, a.t, Signalled(q));
    } else {
      QuietStep(s, a, q);
    }
  }

  /** A broadcast that ends leaves nobody asleep. */
  lemma BroadcastEnds(s: State, t: nat)
    requires CalmInv(s) && At(s, t).Wake? && !At(s, t).half && Q(s, At(s, t).q).waiting == 0
    ensures forall u :: !Sleeps(s, u, At(s, t).q)
  {
    var q := At(s, t).q;
    OnlySignaller(s, t, Decremented(q));
    OnlySignaller(s, t, Signalled(q));
    SomeSleeper(s, q);
  }

  /** A thread that falls asleep does so because its guard says so, and changes no data. */
  lemma SleepsForAReason(s: State, a: Action)
    requires Enabled(s, a) && !a.Interrupt? && PlanOf(s, a).pc.Queued?
    ensures PlanOf(s, a).d == s.d && Blocked(s.d, PlanOf(s, a).pc.c)
  {
  }

  lemma StepInBroadcast(s: State, t: nat)
    requires CalmInv(s) && At(s, t).Wake?
    ensures !Interrupted(PlanOf(s, Go(t)).pc)
    ensures var pc := PlanOf(s, Go(t)).pc;
      (pc.Wake? && pc.q == At(s, t).q) || (!pc.Queued? && forall u :: !Sleeps(s, u, At(s, t).q))
  {
    if !At(s, t).half && Q(s, At(s, t).q).waiting == 0 {
      BroadcastEnds(s, t);
    }
  }

  /** A broadcast stays under way unless its own thread ends it, with nobody asleep. */
  lemma WakingSettles(s: State, a: Action, u: nat, q: Side)
    requires Enabled(s, a) && At(s, u).Wake? && At(s, u).q == q
    requires u == a.t ==> var pc := PlanOf(s, a).pc;
      (pc.Wake? && pc.q == q) || (!pc.Queued? && forall v :: !Sleeps(s, v, q))
    ensures Settled(Apply(s, a), q)
  {
    var s' := Apply(s, a);
    assert forall v :: At(s', v) == if v == a.t then PlanOf(s, a).pc else At(s, v);
    if u == a.t && !PlanOf(s, a).pc.Wake? {
      assert forall v :: Sleeps(s', v, q) ==> Sleeps(s, v, q);
    } else {
      assert At(s', u).Wake? && At(s', u).q == q;
    }
  }

  lemma StillBlocked(s: State, a: Action, v: nat, q: Side)
    requires Inv(s) && Settled(s, q) && Enabled(s, a) && !a.Interrupt? && !Interrupted(At(s, a.t))
    requires !Waking(s, q) && !Waking(Apply(s, a), q) && Sleeps(Apply(s, a), v, q)
    ensures Blocked(Apply(s, a).d, At(Apply(s, a), v).c)
  {
    var s' := Apply(s, a);
    assert At(s', a.t) == PlanOf(s, a).pc;
    if v == a.t {
      SleepsForAReason(s, a);
    } else {
      assert Sleeps(s, v, q);
      if !Blocked(s'.d, At(s', v).c) {
        OnlyBroadcastsUnblock(s, a, At(s, v).c);
      }
    }
  }

  lemma KeepsSettled(s: State, a: Action, q: Side)
    requires CalmInv(s) && Enabled(s, a) && !a.Interrupt?
    ensures Settled(Apply(s, a), q)
  {
    if u :| At(s, u).Wake? && At(s, u).q == q {
      StepInBroadcast(s, u);
      assert u == a.t ==> a == Go(u);
      WakingSettles(s, a, u, q);
    } else if !Waking(Apply(s, a), q) {
      forall v | Sleeps(Apply(s, a), v, q)
        ensures Blocked(Apply(s, a).d, At(Apply(s, a), v).c)
      {
        StillBlocked(s, a, v, q);
      }
    }
  }

  // ----- a calm step

  /** Whoever signals has a sleeper to hand the token to. */
  lemma SignalFindsSleeper(s: State, a: Action)
    requires CalmInv(s) && Enabled(s, a) && !a.Interrupt? && PlanOf(s, a).op.PutToken?
    ensures exists v :: Sleeps(Apply(s, a), v, PlanOf(s, a).op.q)
  {
    var q := PlanOf(s, a).op.q;
    if !At(s, a.t).Wake? {
      QuietStep(s, a, q);
    }
    OnlySignaller(s, a.t, Decremented(q));
    OnlySignaller(s, a.t, Signalled(q));
    SomeSleeper(s, q);
    var v :| Sleeps(s, v, q);
    assert Sleeps(Apply(s, a), v, q);
  }

  lemma NoneInterrupted(s: State, a: Action)
    requires Enabled(s, a) && !a.Interrupt? && !Interrupted(At(s, a.t))
    ensures !Interrupted(PlanOf(s, a).pc)
  {
  }

  lemma NobodyInterrupted(s: State, a: Action)
    requires Enabled(s, a) && !a.Interrupt? && forall t :: !Interrupted(At(s, t))
    ensures forall t :: !Interrupted(At(Apply(s, a), t))
  {
    NoneInterrupted(s, a);
    assert forall t :: At(Apply(s, a), t) == if t == a.t then PlanOf(s, a).pc else At(s, t);
  }

  lemma KeepsRest(s: State, a: Action)
    requires CalmInv(s) && Enabled(s, a) && !a.Interrupt?
    ensures AllButTokens(Apply(s, a))
  {
    InvStep(s, a);
    NobodyInterrupted(s, a);
    KeepsCounts(s, a, Producers);
    KeepsCounts(s, a, Consumers);
    KeepsSettled(s, a, Producers);
    KeepsSettled(s, a, Consumers);
  }

  lemma HandOverCounts(s: State, w: nat, q: Side)
    requires Enabled(s, Go(w)) && At(s, w).Queued? && Q(s, q).waiting >= Count(s.threads, Signalled(q))
    ensures Q(Apply(s, Go(w)), q).waiting >= Count(Apply(s, Go(w)).threads, Signalled(q))
  {
    CountGoto(s, w, Woken(At(s, w).c), Signalled(q));
  }

  /** The sleeper that was handed the token moves on and disturbs nothing. */
  lemma HandedOver(s: State, w: nat, q: Side)
    requires AllButTokens(s) && Sleeps(s, w, q) && Enabled(s, Go(w))
    requires Q(s, q).tokens == 1 && Q(s, Other(q)).tokens == 0
    ensures CalmInv(Apply(s, Go(w)))
  {
    var s' := Apply(s, Go(w));
    InvStep(s, Go(w));
    NobodyInterrupted(s, Go(w));
    HandOverCounts(s, w, Producers);
    HandOverCounts(s, w, Consumers);
    assert forall t :: At(s', t) == if t == w then Woken(At(s, w).c) else At(s, t);
    StaysSettled(s, s', w, Producers);
    StaysSettled(s, s', w, Consumers);
  }

  lemma StaysSettled(s: State, s': State, w: nat, p: Side)
    requires Settled(s, p) && s'.d == s.d && At(s, w).Queued? && At(s', w).Woken?
    requires forall t :: t != w ==> At(s', t) == At(s, t)
    ensures Settled(s', p)
  {
    if t :| At(s, t).Wake? && At(s, t).q == p {
      assert At(s', t) == At(s, t);
    } else {
      assert forall t :: Sleeps(s', t, p) ==> Sleeps(s, t, p);
    }
  }

  /** Tokens come from signals only while there are none to take. */
  lemma TokensAfter(s: State, a: Action, q: Side)
    requires Enabled(s, a) && Q(s, q).tokens == 0
    ensures Q(Apply(s, a), q).tokens == Bit(PlanOf(s, a).op == PutToken(q))
  {
  }

  lemma CalmWithoutSignal(s: State, a: Action)
    requires CalmInv(s) && Enabled(s, a) && !a.Interrupt? && !PlanOf(s, a).op.PutToken?
    ensures CalmInv(Apply(s, a))
  {
    KeepsRest(s, a);
    TokensAfter(s, a, Producers);
    TokensAfter(s, a, Consumers);
  }

  lemma CalmSignal(s: State, a: Action, w: nat, q: Side)
    requires CalmInv(s) && Enabled(s, a) && !a.Interrupt? && PlanOf(s, a).op == PutToken(q)
    requires Sleeps(Apply(s, a), w, q) && Enabled(Apply(s, a), Go(w))
    ensures CalmInv(Apply(Apply(s, a), Go(w)))
  {
    KeepsRest(s, a);
    TokensAfter(s, a, Producers);
    TokensAfter(s, a, Consumers);
    HandedOver(Apply(s, a), w, q);
  }

  lemma CalmInvStep(s: State, a: Action, w: nat, s': State)
    requires CalmInv(s) && CalmStep(s, a, w, s')
    ensures CalmInv(s')
  {
    if PlanOf(s, a).op.PutToken? {
      SignalFindsSleeper(s, a);
      CalmSignal(s, a, w, PlanOf(s, a).op.q);
    } else {
      CalmWithoutSignal(s, a);
    }
  }

  lemma NobodyStarted(s: State)
    requires Inv(s) && s.threads == map[] && s.prod == Queue(0, 0) && s.cons == Queue(0, 0)
    ensures CalmInv(s)
  {
    assert Those(s.threads, Signalled(Producers)) == {} && Those(s.threads, Signalled(Consumers)) == {};
  }

  lemma CalmInvInit()
    ensures CalmInv(Init())
  {
    InvInit();
    NobodyStarted(Init());
  }

  lemma CalmInvNext(s: State, s': State)
    requires CalmInv(s) && CalmNext(s, s')
    ensures CalmInv(s')
  {
    var a, w :| CalmStep(s, a, w, s');
    CalmInvStep(s, a, w, s');
  }

  lemma {:induction false} CalmInvRun(tr: seq<State>, i: nat)
    requires CalmRun(tr) && i < |tr|
    ensures CalmInv(tr[i])
  {
    if i == 0 {
      CalmInvInit();
    } else {
      CalmInvRun(tr, i - 1);
      assert CalmNext(tr[i - 1], tr[i - 1 + 1]);
      CalmInvNext(tr[i - 1], tr[i]);
    }
  }

  // ----- the theorems

  /** Whenever the mutex is free, every sleeping call still has its reason to sleep: no wake-up was lost. */
  lemma NoLostWakeup(tr: seq<State>, i: nat, t: nat)
    requires CalmRun(tr) && i < |tr| && tr[i].mutex > 0 && At(tr[i], t).Queued?
    ensures match At(tr[i], t).c
      case Open(_, reader) => if reader then tr[i].d.numProd == 0 else tr[i].d.numCons == 0
      case Read(_, n) => |tr[i].d.buf| < n
      case Write(_, b) => tr[i].d.numCons > 0 && BUF_LEN - |tr[i].d.buf| < |b|
      case Release(_, _) => false
  {
    CalmInvRun(tr, i);
    var s, q := tr[i], SideOf(At(tr[i], t).c);
    forall u
      ensures !At(s, u).Wake?
    {
      assert u !in Those(s.threads, Holding);
    }
    assert Settled(s, q) && Sleeps(s, t, q);
  }

  /** The waiter counts are never negative, and equal the sleepers whenever the mutex is free. */
  lemma CountsAreSleepers(tr: seq<State>, i: nat, q: Side)
    requires CalmRun(tr) && i < |tr|
    ensures Q(tr[i], q).waiting >= 0 && Q(tr[i], q).tokens == 0
    ensures tr[i].mutex > 0 ==> Q(tr[i], q).waiting == |Sleepers(tr[i], q)|
  {
    CalmInvRun(tr, i);
    var s := tr[i];
    if s.mutex > 0 {
      assert Those(s.threads, Holding) == {};
      assert Those(s.threads, Decremented(q)) <= Those(s.threads, Holding);
      assert Those(s.threads, Signalled(q)) <= Those(s.threads, Holding);
      assert Those(s.threads, OnQueue(q)) == Sleepers(s, q) by {
        assert forall t :: !Interrupted(At(s, t));
      }
    }
  }
}
