/**
  Wake-ups of the FIFO device as the code has them: giving the mutex back and
  going to sleep are two steps, so a token may go to a thread that came after
  the signal, and threads may be interrupted. What the signals still guarantee,
  and exactly which steps break the guarantee.
 */
module FifoTokens {
  import opened Counting
  import opened Fifo
  import opened FifoWakeup

  ghost predicate Uninterrupted(s: State, a: Action, s': State) {
    !a.Interrupt? && Enabled(s, a) && s' == Apply(s, a)
  }

  ghost predicate QuietNext(s: State, s': State) {
    exists a :: Uninterrupted(s, a, s')
  }

  ghost predicate QuietRun(tr: seq<State>) {
    && |tr| > 0
    && tr[0] == Init()
    && forall i :: 0 <= i < |tr| - 1 ==> QuietNext(tr[i], tr[i + 1])
  }

  // ----- counts and tokens

  ghost predicate QuietInv(s: State) {
    && Inv(s)
    && (forall t :: !Interrupted(At(s, t)))
    && s.prod.waiting >= Count(s.threads, Signalled(Producers))
    && s.cons.waiting >= Count(s.threads, Signalled(Consumers))
  }

  lemma QuietInvStep(s: State, a: Action)
    requires QuietInv(s) && Enabled(s, a) && !a.Interrupt?
    ensures QuietInv(Apply(s, a))
  {
    InvStep(s, a);
    NobodyInterrupted(s, a);
    KeepsCounts(s, a, Producers);
    KeepsCounts(s, a, Consumers);
  }

  lemma QuietInvInit()
    ensures QuietInv(Init())
  {
    CalmInvInit();
  }

  lemma QuietInvNext(s: State, s': State)
    requires QuietInv(s) && QuietNext(s, s')
    ensures QuietInv(s')
  {
    var a :| Uninterrupted(s, a, s');
    QuietInvStep(s, a);
  }

  lemma {:induction false} QuietInvRun(tr: seq<State>, i: nat)
    requires QuietRun(tr) && i < |tr|
    ensures QuietInv(tr[i])
  {
    if i == 0 {
      QuietInvInit();
    } else {
      QuietInvRun(tr, i - 1);
      assert QuietNext(tr[i - 1], tr[i - 1 + 1]);
      QuietInvNext(tr[i - 1], tr[i]);
    }
  }

  /** Without interruptions the threads registered on `q` are those asleep there. */
  lemma RegisteredSleep(s: State, q: Side)
    requires forall t :: !Interrupted(At(s, t))
    ensures Those(s.threads, OnQueue(q)) == Sleepers(s, q)
  {
    forall t | t in s.threads
      ensures t in Those(s.threads, OnQueue(q)) <==> t in Sleepers(s, q)
    {
      assert !Interrupted(At(s, t));
    }
  }

  lemma NobodySignals(s: State, q: Side)
    requires Exclusive(s) && s.mutex > 0
    ensures Count(s.threads, Decremented(q)) == 0 && Count(s.threads, Signalled(q)) == 0
  {
    assert Those(s.threads, Holding) == {};
    assert Those(s.threads, Decremented(q)) <= Those(s.threads, Holding);
    assert Those(s.threads, Signalled(q)) <= Those(s.threads, Holding);
  }

  /** The counts are never negative; with the mutex free, count and tokens together are the sleepers. */
  lemma CountsAndTokensAreSleepers(tr: seq<State>, i: nat, q: Side)
    requires QuietRun(tr) && i < |tr|
    ensures Q(tr[i], q).waiting >= 0
    ensures tr[i].mutex > 0 ==> Q(tr[i], q).waiting + Q(tr[i], q).tokens == |Sleepers(tr[i], q)|
  {
    QuietInvRun(tr, i);
    RegisteredSleep(tr[i], q);
    if tr[i].mutex > 0 {
      NobodySignals(tr[i], q);
    }
  }

  /** When a broadcast has run its count down, there is a token for every sleeper. */
  lemma BroadcastCoversAll(tr: seq<State>, i: nat, t: nat)
    requires QuietRun(tr) && i < |tr| && At(tr[i], t).Wake? && !At(tr[i], t).half
    ensures var q := At(tr[i], t).q;
      Q(tr[i], q).waiting + Q(tr[i], q).tokens == |Sleepers(tr[i], q)|
  {
    QuietInvRun(tr, i);
    var q := At(tr[i], t).q;
    RegisteredSleep(tr[i], q);
    OnlySignaller(tr[i], t, Decremented(q));
    OnlySignaller(tr[i], t, Signalled(q));
  }

  /** A signal is sent only while some sleeper has no token yet. */
  lemma SignalsOnlyForSleepers(tr: seq<State>, i: nat, a: Action)
    requires QuietRun(tr) && i < |tr| && !a.Interrupt? && Enabled(tr[i], a) && PlanOf(tr[i], a).op.PutToken?
    ensures var q := PlanOf(tr[i], a).op.q;
      Q(tr[i], q).tokens < |Sleepers(tr[i], q)|
  {
    QuietInvRun(tr, i);
    SignalHasSleeper(tr[i], a);
  }

  lemma SignalHasSleeper(s: State, a: Action)
    requires QuietInv(s) && !a.Interrupt? && Enabled(s, a) && PlanOf(s, a).op.PutToken?
    ensures var q := PlanOf(s, a).op.q;
      Q(s, q).tokens < |Sleepers(s, q)|
  {
    var q := PlanOf(s, a).op.q;
    RegisteredSleep(s, q);
    if !At(s, a.t).Wake? {
      QuietStep(s, a, q);
    }
    OnlySignaller(s, a.t, Decremented(q));
    OnlySignaller(s, a.t, Signalled(q));
  }

  // ----- tokens for those who can go on

  /** The sleepers whose reason to sleep is gone. */
  function Ready(s: State, q: Side): set<nat> {
    set t | t in s.threads && Sleeps(s, t, q) && !Blocked(s.d, At(s, t).c)
  }

  /** Every sleeper that could go on has a token, or a broadcast on its queue is under way. */
  ghost predicate Covered(s: State, q: Side) {
    Waking(s, q) || |Ready(s, q)| <= Q(s, q).tokens
  }

  /** A thread takes a token it has no use for, and there was none to spare. */
  ghost predicate Steals(s: State, a: Action, q: Side) {
    && a.Go? && Sleeps(s, a.t, q) && Blocked(s.d, At(s, a.t).c)
    && !Waking(s, q)
    && |Ready(s, q)| == Q(s, q).tokens
  }

  lemma AtApply(s: State, a: Action)
    requires Enabled(s, a)
    ensures forall t :: At(Apply(s, a), t) == if t == a.t then PlanOf(s, a).pc else At(s, t)
  {
  }

  /** A step into a broadcast, or inside one. */
  lemma InsideBroadcast(s: State, a: Action, q: Side)
    requires Enabled(s, a) && PlanOf(s, a).pc.Wake? && PlanOf(s, a).pc.q == q
    ensures Waking(Apply(s, a), q)
  {
    assert At(Apply(s, a), a.t) == PlanOf(s, a).pc;
  }

  lemma OthersBroadcast(s: State, a: Action, q: Side)
    requires Enabled(s, a) && Waking(s, q) && !(At(s, a.t).Wake? && At(s, a.t).q == q)
    ensures Waking(Apply(s, a), q)
  {
    var u :| At(s, u).Wake? && At(s, u).q == q;
    assert At(Apply(s, a), u) == At(s, u);
  }

  /** An interrupted open takes back the last reader, while more writers sleep in a write than tokens are out. */
  ghost predicate Abandons(s: State, a: Action, q: Side) {
    LastReaderUndone(s, a, q) && |WritersAsleep(s)| > Q(s, q).tokens
  }

  predicate LastReaderUndone(s: State, a: Action, q: Side) {
    q == Producers && a.Go? && At(s, a.t).RollingBack? && At(s, a.t).c.Open? && At(s, a.t).c.reader && s.d.numCons == 1
  }

  function WritersAsleep(s: State): set<nat> {
    set t | t in s.threads && At(s, t).Queued? && At(s, t).c.Write?
  }

  lemma SleepersRegistered(s: State, q: Side)
    ensures |Sleepers(s, q)| <= Count(s.threads, OnQueue(q))
  {
    Smaller(Sleepers(s, q), Those(s.threads, OnQueue(q)));
  }

  /** A broadcast that ends has left a token for every sleeper. */
  lemma EndCovers(s: State, a: Action, q: Side)
    requires Inv(s) && Enabled(s, a) && At(s, a.t).Wake? && At(s, a.t).q == q
    ensures Covered(Apply(s, a), q)
  {
    var s' := Apply(s, a);
    if PlanOf(s, a).pc.Wake? {
      InsideBroadcast(s, a, q);
    } else {
      SleepersRegistered(s, q);
      OnlySignaller(s, a.t, Decremented(q));
      OnlySignaller(s, a.t, Signalled(q));
      AtApply(s, a);
      Smaller(Ready(s', q), Sleepers(s, q));
    }
  }

  lemma Smaller(a: set<nat>, b: set<nat>)
    requires a <= b
    ensures |a| <= |b|
  {
    assert b == a + (b - a);
  }

  /** Reasons to sleep go away in a step into a broadcast, or when the last reader is taken back. */
  lemma OnlyTheseUnblock(s: State, a: Action, c: Call)
    requires Inv(s) && Enabled(s, a) && Blocked(s.d, c) && !Blocked(Apply(s, a).d, c)
    ensures (PlanOf(s, a).pc.Wake? && PlanOf(s, a).pc.q == SideOf(c)) || LastReaderUndone(s, a, SideOf(c))
  {
    if !a.Interrupt? && !Interrupted(At(s, a.t)) {
      OnlyBroadcastsUnblock(s, a, c);
    } else {
      var pc := At(s, a.t);
      assert ThreadOk(s.d, a.t, pc);
      if a.Go? && pc.RollingBack? {
        assert pc.c.h in Counted(s.d.handles, pc.c.reader);
      }
    }
  }

  /** Otherwise nobody outside a broadcast on `q` becomes ready. */
  lemma ReadyFollows(s: State, a: Action, q: Side, t: nat)
    requires Inv(s) && Enabled(s, a) && !LastReaderUndone(s, a, q)
    requires !Waking(Apply(s, a), q) && t in Ready(Apply(s, a), q)
    ensures t != a.t && t in Ready(s, q)
  {
    AtApply(s, a);
    if t == a.t {
      OwnReason(s, a);
    } else if Blocked(s.d, At(s, t).c) {
      OnlyTheseUnblock(s, a, At(s, t).c);
      InsideBroadcast(s, a, q);
    }
  }

  lemma OwnReason(s: State, a: Action)
    requires Enabled(s, a) && PlanOf(s, a).pc.Queued?
    ensures Blocked(PlanOf(s, a).d, PlanOf(s, a).pc.c)
  {
    SleepsForAReason(s, a);
  }

  lemma ReadyShrinks(s: State, a: Action, q: Side)
    requires Inv(s) && Enabled(s, a) && !LastReaderUndone(s, a, q) && !Waking(Apply(s, a), q)
    ensures Ready(Apply(s, a), q) <= Ready(s, q) - {a.t}
  {
    forall t | t in Ready(Apply(s, a), q)
      ensures t in Ready(s, q) - {a.t}
    {
      ReadyFollows(s, a, q, t);
    }
  }

  /** The step of a sleeper changes neither data nor other threads. */
  lemma SleeperSteps(s: State, a: Action, q: Side)
    requires Enabled(s, a) && a.Go? && Sleeps(s, a.t, q)
    ensures Ready(Apply(s, a), q) == Ready(s, q) - {a.t}
    ensures Q(Apply(s, a), q).tokens == Q(s, q).tokens - 1
    ensures Waking(Apply(s, a), q) ==> Waking(s, q)
  {
    AtApply(s, a);
    var s' := Apply(s, a);
    forall t
      ensures t in Ready(s', q) <==> t in Ready(s, q) - {a.t}
    {
    }
    if u :| At(s', u).Wake? && At(s', u).q == q {
      assert At(s, u) == At(s', u);
    }
  }

  /** A thread that does not sleep on `q` takes no token from it. */
  lemma OthersTakeNoToken(s: State, a: Action, q: Side)
    requires Enabled(s, a) && !(a.Go? && Sleeps(s, a.t, q))
    ensures Q(Apply(s, a), q).tokens >= Q(s, q).tokens
  {
  }

  /** With the last reader gone, the writers asleep in a write are those who could go on, to be refused. */
  lemma UndoneReady(s: State, a: Action, t: nat)
    requires Inv(s) && Enabled(s, a) && LastReaderUndone(s, a, Producers)
    ensures t in Ready(Apply(s, a), Producers) <==> t in WritersAsleep(s)
  {
    AtApply(s, a);
    if t in s.threads {
      assert ThreadOk(s.d, t, s.threads[t]);
    }
    assert ThreadOk(s.d, a.t, At(s, a.t));
  }

  /** Who undoes an open is inside: nobody broadcasts. */
  lemma UndoneAlone(s: State, a: Action, q: Side)
    requires Inv(s) && Enabled(s, a) && a.Go? && At(s, a.t).RollingBack?
    ensures !Waking(s, q) && !Waking(Apply(s, a), q)
  {
    AtApply(s, a);
    if u :| At(s, u).Wake? && At(s, u).q == q {
      OnlyHolder(s, u, a.t);
    }
  }

  lemma UndoneUncovers(s: State, a: Action)
    requires Inv(s) && Enabled(s, a) && LastReaderUndone(s, a, Producers)
    ensures Covered(Apply(s, a), Producers) <==> !Abandons(s, a, Producers)
  {
    UndoneAlone(s, a, Producers);
    forall t
      ensures t in Ready(Apply(s, a), Producers) <==> t in WritersAsleep(s)
    {
      UndoneReady(s, a, t);
    }
    assert Ready(Apply(s, a), Producers) == WritersAsleep(s);
  }

  /** The guarantee is broken by a theft, by taking back the last reader, and by nothing else. */
  lemma UncoveredExactly(s: State, a: Action, q: Side)
    requires Inv(s) && Enabled(s, a) && Covered(s, q)
    ensures !Covered(Apply(s, a), q) <==> Steals(s, a, q) || Abandons(s, a, q)
  {
    var s' := Apply(s, a);
    if LastReaderUndone(s, a, q) {
      UndoneUncovers(s, a);
    } else if a.Go? && Sleeps(s, a.t, q) {
      SleeperSteps(s, a, q);
      OneChange(Ready(s, q), Ready(s', q), a.t);
      if Waking(s, q) {
        OthersBroadcast(s, a, q);
      }
    } else if Waking(s, q) {
      if At(s, a.t).Wake? && At(s, a.t).q == q {
        EndCovers(s, a, q);
      } else {
        OthersBroadcast(s, a, q);
      }
    } else if !Waking(s', q) {
      ReadyShrinks(s, a, q);
      Smaller(Ready(s', q), Ready(s, q));
      OthersTakeNoToken(s, a, q);
    }
  }

  // ----- runs

  /** The step from `s` to `s'` breaks the guarantee. */
  ghost predicate Loses(s: State, s': State, q: Side) {
    exists a :: Enabled(s, a) && s' == Apply(s, a) && (Steals(s, a, q) || Abandons(s, a, q))
  }

  lemma LosesUncovers(s: State, s': State, q: Side)
    requires Inv(s) && Next(s, s') && Covered(s, q)
    ensures Covered(s', q) <==> !Loses(s, s', q)
  {
    if Loses(s, s', q) {
      var a :| Enabled(s, a) && s' == Apply(s, a) && (Steals(s, a, q) || Abandons(s, a, q));
      UncoveredExactly(s, a, q);
    } else {
      var a :| Enabled(s, a) && s' == Apply(s, a);
      UncoveredExactly(s, a, q);
    }
  }

  lemma InitCovered(q: Side)
    ensures Covered(Init(), q)
  {
    assert Ready(Init(), q) == {};
  }

  lemma {:induction false} CoveredUpTo(tr: seq<State>, n: nat, q: Side)
    requires Run(tr) && n < |tr|
    requires forall i :: 0 <= i < n ==> !Loses(tr[i], tr[i + 1], q)
    ensures Covered(tr[n], q)
  {
    if n == 0 {
      InitCovered(q);
    } else {
      CoveredUpTo(tr, n - 1, q);
      InvRun(tr, n - 1);
      assert Next(tr[n - 1], tr[n - 1 + 1]) && !Loses(tr[n - 1], tr[n - 1 + 1], q);
      LosesUncovers(tr[n - 1], tr[n], q);
    }
  }

  /** Along a run the guarantee holds throughout exactly when no step breaks it. */
  lemma CoveredExactly(tr: seq<State>, q: Side)
    requires Run(tr)
    ensures (forall i :: 0 <= i < |tr| ==> Covered(tr[i], q)) <==> (forall i :: 0 <= i < |tr| - 1 ==> !Loses(tr[i], tr[i + 1], q))
  {
    if forall i :: 0 <= i < |tr| - 1 ==> !Loses(tr[i], tr[i + 1], q) {
      forall i | 0 <= i < |tr|
        ensures Covered(tr[i], q)
      {
        CoveredUpTo(tr, i, q);
      }
    } else {
      var i :| 0 <= i < |tr| - 1 && Loses(tr[i], tr[i + 1], q);
      LossSeen(tr, i, q);
    }
  }

  lemma LossSeen(tr: seq<State>, i: nat, q: Side)
    requires Run(tr) && i + 1 < |tr| && Loses(tr[i], tr[i + 1], q)
    ensures !Covered(tr[i], q) || !Covered(tr[i + 1], q)
  {
    InvRun(tr, i);
    if Covered(tr[i], q) {
      LosesUncovers(tr[i], tr[i + 1], q);
    }
  }

  /** With the mutex free and no token left, the guarantee means that every sleeper still has its reason to sleep. */
  lemma CoveredSleepers(s: State, t: nat)
    requires Inv(s) && s.mutex > 0 && At(s, t).Queued?
    requires Covered(s, SideOf(At(s, t).c)) && Q(s, SideOf(At(s, t).c)).tokens == 0
    ensures Blocked(s.d, At(s, t).c)
  {
    forall u
      ensures !At(s, u).Wake?
    {
      assert u !in Those(s.threads, Holding);
    }
    assert Ready(s, SideOf(At(s, t).c)) == {};
    assert t !in Ready(s, SideOf(At(s, t).c));
  }

  /**
    Interruptions included: where no step has broken the guarantee, a free mutex and no token left mean that every
    sleeper still has its reason to sleep.
   */
  lemma NoLostWakeupUnlessBroken(tr: seq<State>, i: nat, t: nat)
    requires Run(tr) && i < |tr| && tr[i].mutex > 0 && At(tr[i], t).Queued?
    requires Q(tr[i], SideOf(At(tr[i], t).c)).tokens == 0
    requires forall j :: 0 <= j < i ==> !Loses(tr[j], tr[j + 1], SideOf(At(tr[i], t).c))
    ensures match At(tr[i], t).c
      case Open(_, reader) => if reader then tr[i].d.numProd == 0 else tr[i].d.numCons == 0
      case Read(_, n) => |tr[i].d.buf| < n
      case Write(_, b) => tr[i].d.numCons > 0 && BUF_LEN - |tr[i].d.buf| < |b|
      case Release(_, _) => false
  {
    InvRun(tr, i);
    CoveredUpTo(tr, i, SideOf(At(tr[i], t).c));
    CoveredSleepers(tr[i], t);
  }

  // ----- who can go on

  /** A thread that cannot go on waits for the mutex or for a token. */
  lemma WaitsForSemaphore(s: State, t: nat)
    requires At(s, t) != Idle && !Enabled(s, Go(t))
    ensures match At(s, t)
      case Queued(c) => Q(s, SideOf(c)).tokens == 0
      case Enter(_) => s.mutex == 0
      case Woken(_) => s.mutex == 0
      case Undo(_) => s.mutex == 0
      case Rollback(_) => s.mutex == 0
      case _ => false
  {
  }

  /** A call can be interrupted exactly at its interruptible waits, and begin exactly on a handle that allows it. */
  lemma InterruptsAndBegins(s: State, t: nat, h: nat, reader: bool, n: nat, b: seq<Byte>)
    ensures Enabled(s, Interrupt(t)) <==> At(s, t).Enter? || At(s, t).Queued? || At(s, t).Woken?
    ensures Enabled(s, Begin(t, Open(h, reader))) <==> At(s, t) == Idle && h !in s.d.handles
    ensures var free := (r: bool) => At(s, t) == Idle && h in s.d.handles && s.d.handles[h] == Handle(r, true, None);
      && (Enabled(s, Begin(t, Release(h, reader))) <==> free(reader))
      && (Enabled(s, Begin(t, Read(h, n))) <==> free(true))
      && (Enabled(s, Begin(t, Write(h, b))) <==> free(false))
  {
  }

  /** When nobody in a call can go on, the mutex is free, and everyone in a call sleeps on a queue without tokens. */
  lemma NeverStuck(tr: seq<State>, i: nat, t: nat)
    requires Run(tr) && i < |tr| && At(tr[i], t) != Idle
    requires forall u :: At(tr[i], u) != Idle ==> !Enabled(tr[i], Go(u))
    ensures tr[i].mutex == 1 && At(tr[i], t).Queued? && Q(tr[i], SideOf(At(tr[i], t).c)).tokens == 0
  {
    var s := tr[i];
    InvRun(tr, i);
    WaitsForSemaphore(s, t);
    forall u | u in s.threads
      ensures !Is(Holding, s.threads[u])
    {
      assert At(s, u) == s.threads[u];
      if s.threads[u] != Idle {
        WaitsForSemaphore(s, u);
      }
    }
    assert Those(s.threads, Holding) == {};
  }
}
