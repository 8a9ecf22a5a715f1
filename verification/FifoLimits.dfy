/**
  What the FIFO device does not promise: runs in which a wake-up is lost, a
  waiter count goes negative, a reader sleeps on at end of file, and a writer
  sleeps on with nobody left to read, with the steps that lead there.
 */
module FifoLimits {
  import opened Counting
  import opened Fifo
  import FifoWakeup
  import FifoTokens
  import FifoBroadcast

  ghost predicate Reachable(s: State) {
    exists tr :: Run(tr) && tr[|tr| - 1] == s
  }

  lemma StepReachable(s: State, a: Action)
    requires Reachable(s) && Enabled(s, a)
    ensures Reachable(Apply(s, a))
  {
    var tr :| Run(tr) && tr[|tr| - 1] == s;
    var tr' := tr + [Apply(s, a)];
    forall i | 0 <= i < |tr'| - 1
      ensures Next(tr'[i], tr'[i + 1])
    {
      assert i < |tr| - 1 ==> Next(tr[i], tr[i + 1]);
    }
    assert Run(tr');
  }

  /** Reachable without any interruption. */
  ghost predicate QuietlyReachable(s: State) {
    exists tr :: FifoTokens.QuietRun(tr) && tr[|tr| - 1] == s
  }

  lemma QuietIsReachable(s: State)
    requires QuietlyReachable(s)
    ensures Reachable(s)
  {
    var tr :| FifoTokens.QuietRun(tr) && tr[|tr| - 1] == s;
    forall i | 0 <= i < |tr| - 1
      ensures Next(tr[i], tr[i + 1])
    {
      assert FifoTokens.QuietNext(tr[i], tr[i + 1]);
    }
    assert Run(tr);
  }

  lemma QuietlyInit()
    ensures QuietlyReachable(Init())
  {
    assert FifoTokens.QuietRun([Init()]);
  }

  lemma QuietStepReachable(s: State, a: Action)
    requires QuietlyReachable(s) && Enabled(s, a) && !a.Interrupt?
    ensures QuietlyReachable(Apply(s, a))
  {
    var tr :| FifoTokens.QuietRun(tr) && tr[|tr| - 1] == s;
    var tr' := tr + [Apply(s, a)];
    assert FifoTokens.Uninterrupted(s, a, Apply(s, a));
    forall i | 0 <= i < |tr'| - 1
      ensures FifoTokens.QuietNext(tr'[i], tr'[i + 1])
    {
      assert i < |tr| - 1 ==> FifoTokens.QuietNext(tr[i], tr[i + 1]);
    }
    assert FifoTokens.QuietRun(tr');
  }

  /** Reachable by a run in which giving the mutex back and going to sleep is one step. */
  ghost predicate CalmlyReachable(s: State) {
    exists tr :: FifoWakeup.CalmRun(tr) && tr[|tr| - 1] == s
  }

  /** Every run with atomic release-and-park is a run without interruptions: its states are reachable. */
  lemma {:induction false} CalmReachable(tr: seq<State>, i: nat)
    requires FifoWakeup.CalmRun(tr) && i < |tr|
    ensures QuietlyReachable(tr[i])
  {
    if i == 0 {
      QuietlyInit();
    } else {
      CalmReachable(tr, i - 1);
      assert FifoWakeup.CalmNext(tr[i - 1], tr[i - 1 + 1]);
      CalmStepReachable(tr[i - 1], tr[i]);
    }
  }

  lemma CalmStepReachable(s: State, s': State)
    requires QuietlyReachable(s) && FifoWakeup.CalmNext(s, s')
    ensures QuietlyReachable(s')
  {
    var a, w :| FifoWakeup.CalmStep(s, a, w, s');
    QuietStepReachable(s, a);
    if Apply(s, a) != s' {
      QuietStepReachable(Apply(s, a), Go(w));
    }
  }

  lemma CalmIsQuiet(s: State)
    requires CalmlyReachable(s)
    ensures QuietlyReachable(s)
  {
    var tr :| FifoWakeup.CalmRun(tr) && tr[|tr| - 1] == s;
    CalmReachable(tr, |tr| - 1);
  }

  lemma CalmNextReachable(s: State, s': State)
    requires CalmlyReachable(s) && FifoWakeup.CalmNext(s, s')
    ensures CalmlyReachable(s')
  {
    var tr :| FifoWakeup.CalmRun(tr) && tr[|tr| - 1] == s;
    var tr' := tr + [s'];
    forall i | 0 <= i < |tr'| - 1
      ensures FifoWakeup.CalmNext(tr'[i], tr'[i + 1])
    {
      assert i < |tr| - 1 ==> FifoWakeup.CalmNext(tr[i], tr[i + 1]);
    }
    assert FifoWakeup.CalmRun(tr');
  }

  // ----- steps

  /** What a step changes. */
  ghost predicate Moved(s: State, a: Action, s': State) {
    var p := PlanOf(s, a);
    && (s'.mutex, s'.prod.tokens, s'.prod.waiting, s'.cons.tokens, s'.cons.waiting, s'.d)
         == (s.mutex + MutexChange(p.op), s.prod.tokens + TokenChange(p.op, Producers), s.prod.waiting + WaitingChange(p.op, Producers),
             s.cons.tokens + TokenChange(p.op, Consumers), s.cons.waiting + WaitingChange(p.op, Consumers), p.d)
    && (forall t :: At(s', t) == if t == a.t then p.pc else At(s, t))
  }

  lemma Moves(s: State, a: Action)
    requires Enabled(s, a)
    ensures Moved(s, a, Apply(s, a))
  {
  }

  lemma Step(s: State, a: Action) returns (s': State)
    requires Reachable(s) && Enabled(s, a)
    ensures Reachable(s') && Moved(s, a, s')
  {
    StepReachable(s, a);
    Moves(s, a);
    s' := Apply(s, a);
  }

  lemma QuietStep(s: State, a: Action) returns (s': State)
    requires QuietlyReachable(s) && Enabled(s, a) && !a.Interrupt?
    ensures QuietlyReachable(s') && Moved(s, a, s')
  {
    QuietStepReachable(s, a);
    Moves(s, a);
    s' := Apply(s, a);
  }

  /** A calm step that signals nobody. */
  lemma Calmly(s: State, a: Action) returns (s': State)
    requires CalmlyReachable(s) && Enabled(s, a) && !a.Interrupt? && !PlanOf(s, a).op.PutToken?
    ensures CalmlyReachable(s') && Moved(s, a, s')
  {
    Moves(s, a);
    s' := Apply(s, a);
    CalmWithoutSignal(s, a);
    CalmNextReachable(s, s');
  }

  lemma CalmWithoutSignal(s: State, a: Action)
    requires Enabled(s, a) && !a.Interrupt? && !PlanOf(s, a).op.PutToken?
    ensures FifoWakeup.CalmNext(s, Apply(s, a))
  {
    assert FifoWakeup.CalmStep(s, a, 0, Apply(s, a));
  }

  /** A thread that has decremented the count sends its signal. */
  lemma Sends(s: State, t: nat)
    requires At(s, t).Wake? && At(s, t).half && DecFirst(At(s, t).c)
    ensures Enabled(s, Go(t)) && PlanOf(s, Go(t)) == Plan(PutToken(At(s, t).q), s.d, At(s, t).(half := false))
  {
  }

  lemma Takes(s: State, w: nat)
    requires At(s, w).Queued? && Q(s, SideOf(At(s, w).c)).tokens > 0
    ensures Enabled(s, Go(w)) && PlanOf(s, Go(w)) == Plan(TakeToken(SideOf(At(s, w).c)), s.d, Woken(At(s, w).c))
  {
  }

  /** The two steps: the token goes up and comes down again. */
  lemma TokenPasses(s: State, t: nat, w: nat) returns (m: State, s': State)
    requires t != w && At(s, t).Wake? && At(s, w).Queued? && At(s, t).q == SideOf(At(s, w).c)
    requires At(s, t).half && DecFirst(At(s, t).c)
    ensures Enabled(s, Go(t)) && m == Apply(s, Go(t)) && Enabled(m, Go(w)) && s' == Apply(m, Go(w))
    ensures At(m, w) == At(s, w) && PlanOf(s, Go(t)).op == PutToken(At(s, t).q)
    ensures (s'.mutex, s'.prod, s'.cons, s'.d) == (s.mutex, s.prod, s.cons, s.d)
    ensures forall u :: At(s', u) == if u == t then At(s, t).(half := false) else if u == w then Woken(At(s, w).c) else At(s, u)
  {
    Sends(s, t);
    Moves(s, Go(t));
    m := Apply(s, Go(t));
    Takes(m, w);
    Moves(m, Go(w));
    s' := Apply(m, Go(w));
  }

  /** A signal of `t` that sleeper `w` is handed at once. */
  lemma HandOver(s: State, t: nat, w: nat) returns (s': State)
    requires CalmlyReachable(s) && t != w && At(s, t).Wake? && At(s, w).Queued? && At(s, t).q == SideOf(At(s, w).c)
    requires At(s, t).half && DecFirst(At(s, t).c)
    ensures CalmlyReachable(s') && (s'.mutex, s'.prod, s'.cons, s'.d) == (s.mutex, s.prod, s.cons, s.d)
    ensures forall u :: At(s', u) == if u == t then At(s, t).(half := false) else if u == w then Woken(At(s, w).c) else At(s, u)
  {
    var m;
    m, s' := TokenPasses(s, t, w);
    HandedCalmly(s, t, w, m, s');
    CalmNextReachable(s, s');
  }

  lemma HandedCalmly(s: State, t: nat, w: nat, m: State, s': State)
    requires At(s, t).Wake? && At(m, w).Queued? && At(s, t).q == SideOf(At(m, w).c)
    requires Enabled(s, Go(t)) && m == Apply(s, Go(t)) && Enabled(m, Go(w)) && s' == Apply(m, Go(w))
    requires PlanOf(s, Go(t)).op == PutToken(At(s, t).q)
    ensures FifoWakeup.CalmNext(s, s')
  {
    assert FifoWakeup.Sleeps(m, w, At(s, t).q);
    assert FifoWakeup.CalmStep(s, Go(t), w, s');
  }

  // ----- two openings

  const R: Call := Open(0, true)
  const W: Call := Open(1, false)

  /** What the three threads of the runs below can see, and where they are. */
  datatype View = View(mutex: nat, prod: Queue, cons: Queue, numProd: int, numCons: int, buf: seq<Byte>, handles: map<nat, Handle>,
                       pc0: Pc, pc1: Pc, pc2: Pc)

  function Look(s: State): View {
    View(s.mutex, s.prod, s.cons, s.d.numProd, s.d.numCons, s.d.buf, s.d.handles, At(s, 0), At(s, 1), At(s, 2))
  }

  const NoOne := Queue(0, 0)
  const OneWaits := Queue(0, 1)

  /** The handles of the reader and the writer, counted or not, and being opened by their threads or open. */
  function Reader(counted: bool): map<nat, Handle> { map[0 := Handle(true, counted, Some(0))] }
  function Opening(counted: bool): map<nat, Handle> { Reader(true)[1 := Handle(false, counted, Some(1))] }
  function WriterOnly(): map<nat, Handle> { Reader(true)[1 := Handle(false, true, None)] }
  function BothOpen(): map<nat, Handle> { map[0 := Handle(true, true, None), 1 := Handle(false, true, None)] }

  /** The reader is inside and nothing has happened yet. */
  lemma ReaderKnocks() returns (s: State)
    ensures CalmlyReachable(s) && Look(s) == View(0, NoOne, NoOne, 0, 0, [], Reader(false), Critical(R), Idle, Idle)
  {
    s := Init();
    assert FifoWakeup.CalmRun([s]);
    s := Calmly(s, Begin(0, R));
    assert Look(s) == View(1, NoOne, NoOne, 0, 0, [], Reader(false), Enter(R), Idle, Idle);
    s := Calmly(s, Go(0));
  }

  lemma ReaderEnters() returns (s: State)
    ensures CalmlyReachable(s)
    ensures Look(s) == View(0, NoOne, NoOne, 0, 1, [], Reader(true), Wake(R, Producers, false), Idle, Idle)
  {
    s := ReaderKnocks();
    s := Calmly(s, Go(0));
  }

  lemma ReaderFallsAsleep() returns (s: State)
    ensures CalmlyReachable(s) && Look(s) == View(1, NoOne, OneWaits, 0, 1, [], Reader(true), Queued(R), Idle, Idle)
  {
    s := ReaderEnters();
    s := Calmly(s, Go(0));
    s := Calmly(s, Go(0));
  }

  /** The writer is inside and has not touched the waiting loop yet. */
  lemma WriterKnocks() returns (s: State)
    ensures CalmlyReachable(s) && Look(s) == View(0, NoOne, OneWaits, 0, 1, [], Opening(false), Queued(R), Critical(W), Idle)
  {
    s := ReaderFallsAsleep();
    s := Calmly(s, Begin(1, W));
    s := Calmly(s, Go(1));
  }

  /** It has not signalled yet: the reader is no longer counted as waiting. */
  lemma WriterEnters() returns (s: State)
    ensures CalmlyReachable(s)
    ensures Look(s) == View(0, NoOne, NoOne, 1, 1, [], Opening(true), Queued(R), Wake(W, Consumers, true), Idle)
  {
    s := WriterKnocks();
    s := Calmly(s, Go(1));
    s := Calmly(s, Go(1));
  }

  // ----- a count below zero

  /** The reader is interrupted between the writer's decrement and its signal. */
  lemma InterruptedThenSignalled() returns (s: State)
    ensures Reachable(s)
    ensures Look(s) == View(0, NoOne, Queue(1, 0), 1, 1, [], Opening(true), Undo(R), Wake(W, Consumers, false), Idle)
  {
    s := WriterEnters();
    CalmIsQuiet(s);
    QuietIsReachable(s);
    s := Step(s, Interrupt(0));
    s := Step(s, Go(1));
  }

  /** The writer leaves. */
  lemma OnlyTheTokenStays() returns (s: State)
    ensures Reachable(s) && Look(s) == View(1, NoOne, Queue(1, 0), 1, 1, [], WriterOnly(), Undo(R), Idle, Idle)
  {
    s := InterruptedThenSignalled();
    s := Step(s, Go(1));
    s := Step(s, Go(1));
    s := Step(s, Go(1));
  }

  /** An interrupted reader that was to be signalled takes its registration back a second time. */
  lemma CountBelowZero() returns (s: State)
    ensures Reachable(s) && s.cons.waiting == -1
  {
    s := OnlyTheTokenStays();
    s := Step(s, Go(0));
    s := Step(s, Go(0));
  }

  /** A thread between its signal and its decrement has seen the count other than zero, and nobody else changes it. */
  ghost predicate SignalsPending(s: State) {
    forall t :: At(s, t).Wake? && At(s, t).half && !DecFirst(At(s, t).c) ==> Q(s, At(s, t).q).waiting != 0
  }

  lemma OwnSignalPending(s: State, a: Action)
    requires Enabled(s, a)
    ensures var pc := PlanOf(s, a).pc;
      pc.Wake? && pc.half && !DecFirst(pc.c) ==> Q(s, pc.q).waiting != 0 && WaitingChange(PlanOf(s, a).op, pc.q) == 0
  {
  }

  lemma KeepsSignalsPending(s: State, a: Action)
    requires Inv(s) && Enabled(s, a) && SignalsPending(s)
    ensures SignalsPending(Apply(s, a))
  {
    var s' := Apply(s, a);
    OwnSignalPending(s, a);
    forall t | At(s', t).Wake? && At(s', t).half && !DecFirst(At(s', t).c)
      ensures Q(s', At(s', t).q).waiting != 0
    {
      if t == a.t {
        assert At(s', t) == PlanOf(s, a).pc;
      } else {
        assert At(s', t) == At(s, t);
        if WaitingChange(PlanOf(s, a).op, At(s, t).q) != 0 {
          FifoBroadcast.CountsChangeInside(s, a, At(s, t).q);
          FifoWakeup.OnlyHolder(s, t, a.t);
        }
      }
    }
  }

  lemma SignalsPendingNext(s: State, s': State)
    requires Inv(s) && SignalsPending(s) && Next(s, s')
    ensures SignalsPending(s')
  {
    var a :| Enabled(s, a) && s' == Apply(s, a);
    KeepsSignalsPending(s, a);
  }

  lemma SignalsPendingInit()
    ensures SignalsPending(Init())
  {
  }

  lemma {:induction false} SignalsPendingRun(tr: seq<State>, i: nat)
    requires Run(tr) && i < |tr|
    ensures SignalsPending(tr[i])
  {
    if i == 0 {
      SignalsPendingInit();
    } else {
      SignalsPendingRun(tr, i - 1);
      InvRun(tr, i - 1);
      assert Next(tr[i - 1], tr[i - 1 + 1]);
      SignalsPendingNext(tr[i - 1], tr[i]);
    }
  }

  /** A count falls below zero exactly when an interrupted thread takes its registration back from a count of zero. */
  lemma BelowZeroExactly(tr: seq<State>, i: nat, a: Action, q: Side)
    requires Run(tr) && i < |tr| && Enabled(tr[i], a) && Q(tr[i], q).waiting >= 0
    ensures Q(Apply(tr[i], a), q).waiting < 0
      <==> a.Go? && At(tr[i], a.t).Undoing? && SideOf(At(tr[i], a.t).c) == q && Q(tr[i], q).waiting == 0
  {
    SignalsPendingRun(tr, i);
    assert Q(Apply(tr[i], a), q).waiting == Q(tr[i], q).waiting + WaitingChange(PlanOf(tr[i], a).op, q);
  }

  // ----- both ends open

  /** The writer signals, the reader is handed the token. */
  lemma HandToken() returns (s: State)
    ensures CalmlyReachable(s)
    ensures Look(s) == View(0, NoOne, NoOne, 1, 1, [], Opening(true), Woken(R), Wake(W, Consumers, false), Idle)
  {
    s := WriterEnters();
    s := HandOver(s, 1, 0);
  }

  lemma WriterOpen() returns (s: State)
    ensures CalmlyReachable(s) && Look(s) == View(1, NoOne, NoOne, 1, 1, [], WriterOnly(), Woken(R), Idle, Idle)
  {
    s := HandToken();
    s := Calmly(s, Go(1));
    s := Calmly(s, Go(1));
    s := Calmly(s, Go(1));
  }

  lemma BothEndsOpen() returns (s: State)
    ensures CalmlyReachable(s) && Look(s) == View(1, NoOne, NoOne, 1, 1, [], BothOpen(), Idle, Idle, Idle)
  {
    s := WriterOpen();
    s := Calmly(s, Go(0));
    s := Calmly(s, Go(0));
    s := Calmly(s, Go(0));
  }

  const One: Call := Read(0, 1)
  const Two: Call := Read(0, 2)
  const Byte7: Call := Write(1, [7])

  /** The reader reads and sleeps. */
  lemma ReaderSleeps() returns (s: State)
    ensures CalmlyReachable(s) && Look(s) == View(1, NoOne, OneWaits, 1, 1, [], BothOpen(), Queued(One), Idle, Idle)
  {
    s := BothEndsOpen();
    s := Calmly(s, Begin(0, One));
    s := Calmly(s, Go(0));
    s := Calmly(s, Go(0));
  }

  // ----- a wake-up lost to a thread that came later

  /** Thread 1 writes the byte and is about to signal. */
  lemma ByteWritten() returns (s: State)
    ensures QuietlyReachable(s)
    ensures Look(s) == View(0, NoOne, OneWaits, 1, 1, [7], BothOpen(), Queued(One), Wake(Byte7, Consumers, false), Idle)
  {
    s := ReaderSleeps();
    CalmIsQuiet(s);
    s := QuietStep(s, Begin(1, Byte7));
    s := QuietStep(s, Go(1));
    assert At(s, 1) == Critical(Byte7) && s.d.buf == [];
    s := QuietStep(s, Go(1));
  }

  /** The one signal is sent. */
  lemma SignalSent() returns (s: State)
    ensures QuietlyReachable(s)
    ensures Look(s) == View(0, NoOne, Queue(1, 0), 1, 1, [7], BothOpen(), Queued(One), Wake(Byte7, Consumers, false), Idle)
  {
    s := ByteWritten();
    s := QuietStep(s, Go(1));
    s := QuietStep(s, Go(1));
  }

  /** The writer leaves. */
  lemma ByteSignalled() returns (s: State)
    ensures QuietlyReachable(s) && Look(s) == View(1, NoOne, Queue(1, 0), 1, 1, [7], BothOpen(), Queued(One), Idle, Idle)
  {
    s := SignalSent();
    s := QuietStep(s, Go(1));
    s := QuietStep(s, Go(1));
  }

  /** Thread 2 asks for two bytes and registers beside the token. */
  lemma LatecomerRegisters() returns (s: State)
    ensures QuietlyReachable(s) && Look(s) == View(1, NoOne, Queue(1, 1), 1, 1, [7], BothOpen(), Queued(One), Idle, Queued(Two))
  {
    s := ByteSignalled();
    s := QuietStep(s, Begin(2, Two));
    s := QuietStep(s, Go(2));
    assert At(s, 2) == Critical(Two) && s.d.buf == [7];
    s := QuietStep(s, Go(2));
  }

  /**
    Without any interruption, thread 2 takes the token meant for thread 0 and sleeps again. The mutex is free, no
    token is left, and thread 0 sleeps although the byte it asked for is there.
   */
  lemma WakeupLost() returns (s: State)
    ensures QuietlyReachable(s) && (s.mutex, s.cons, At(s, 0)) == (1, Queue(0, 2), Queued(Read(0, 1)))
    ensures !Blocked(s.d, Read(0, 1))
  {
    s := LatecomerRegisters();
    s := QuietStep(s, Go(2));
    s := QuietStep(s, Go(2));
    assert At(s, 2) == Test(Two) && s.d.buf == [7];
    s := QuietStep(s, Go(2));
  }

  // ----- a writer left behind by the last reader

  const Full: Call := Write(1, seq(512, _ => 0))

  /** The reader has a token and is interrupted on its way out of open; it still counts as a reader. */
  lemma ReaderInterrupted() returns (s: State)
    ensures Reachable(s) && Look(s) == View(1, NoOne, NoOne, 1, 1, [], WriterOnly(), Rollback(R), Idle, Idle)
  {
    s := WriterOpen();
    CalmIsQuiet(s);
    QuietIsReachable(s);
    s := Step(s, Interrupt(0));
  }

  lemma FirstByteGoesIn() returns (s: State)
    ensures Reachable(s)
    ensures Look(s) == View(0, NoOne, NoOne, 1, 1, [7], WriterOnly(), Rollback(R), Wake(Byte7, Consumers, false), Idle)
  {
    s := ReaderInterrupted();
    s := Step(s, Begin(1, Byte7));
    s := Step(s, Go(1));
    assert At(s, 1) == Critical(Byte7) && s.d.buf == [];
    s := Step(s, Go(1));
  }

  lemma FirstByteWritten() returns (s: State)
    ensures Reachable(s) && Look(s) == View(1, NoOne, NoOne, 1, 1, [7], WriterOnly(), Rollback(R), Idle, Idle)
  {
    s := FirstByteGoesIn();
    s := Step(s, Go(1));
    s := Step(s, Go(1));
  }

  lemma WriterSleeps() returns (s: State)
    ensures Reachable(s) && Look(s) == View(1, OneWaits, NoOne, 1, 1, [7], WriterOnly(), Rollback(R), Queued(Full), Idle)
  {
    s := FirstByteWritten();
    s := Step(s, Begin(1, Full));
    s := Step(s, Go(1));
    assert At(s, 1) == Critical(Full) && s.d.buf == [7];
    s := Step(s, Go(1));
  }

  /**
    The interrupted reader takes itself back and wakes nobody. The mutex is free, no token is out, nobody reads, and
    the writer sleeps on where a write begun now would be refused.
   */
  lemma WriterAbandoned() returns (s: State)
    ensures Reachable(s) && (s.mutex, s.prod, s.d.numCons, At(s, 1)) == (1, OneWaits, 0, Queued(Full))
    ensures TestPlan(s.d, Full).pc == Leave(Full, Epipe)
  {
    s := WriterSleeps();
    s := Step(s, Go(0));
    s := Step(s, Go(0));
  }

  // ----- asleep at end of file

  /** A reader that sleeps with nobody left to write and nothing to read. */
  predicate Stranded(s: State, t: nat) {
    At(s, t).Queued? && At(s, t).c.Read? && AtEnd(s.d)
  }

  /** Without any interruption, the last writer leaves a reader asleep where a read begun now would return end of file. */
  lemma ReaderStranded() returns (s: State)
    ensures CalmlyReachable(s) && s.mutex == 1 && Stranded(s, 0)
    ensures TestPlan(s.d, Read(0, 1)).pc == Leave(Read(0, 1), Eof)
  {
    s := ReaderSleeps();
    s := Calmly(s, Begin(1, Release(1, false)));
    s := Calmly(s, Go(1));
    s := Calmly(s, Go(1));
    assert At(s, 1) == Leave(Release(1, false), Done) && s.d.numProd == 0 && s.d.numCons == 1;
    s := Calmly(s, Go(1));
  }

  /** Nobody writes and nothing is left to read. */
  predicate AtEnd(d: Data) { d.numProd == 0 && d.buf == [] }

  /** The last writer goes and the ring is empty, its handle released or its open undone. */
  predicate LastWriterGoes(d: Data, pc: Pc) {
    d.numProd == 1 && d.buf == [] && ((pc.Critical? && pc.c.Release?) || (pc.RollingBack? && pc.c.Open?)) && !pc.c.reader
  }

  /** A reader takes the last bytes after the last writer. */
  predicate LastBytesGo(d: Data, pc: Pc) {
    d.numProd == 0 && (pc.Critical? || pc.Test?) && pc.c.Read? && pc.c.len == |d.buf|
  }

  /** The last end of all drops what is left. */
  predicate LastEndGoes(d: Data, pc: Pc) {
    d.numProd == 0 && d.numCons == 0 && pc.Leave? && pc.c.Release?
  }

  lemma EndExactly(s: State, a: Action)
    requires Inv(s) && Enabled(s, a) && !AtEnd(s.d)
    ensures var pc := At(s, a.t);
      AtEnd(PlanOf(s, a).d) <==> a.Go? && (LastWriterGoes(s.d, pc) || LastBytesGo(s.d, pc) || LastEndGoes(s.d, pc))
  {
    assert ThreadOk(s.d, a.t, At(s, a.t));
  }

  lemma FallsAsleepInTime(s: State, a: Action)
    requires Enabled(s, a) && PlanOf(s, a).pc.Queued? && PlanOf(s, a).pc.c.Read?
    ensures !AtEnd(PlanOf(s, a).d)
  {
  }

  /** The steps that leave a sleeping reader stranded, and no others: nobody falls asleep stranded. */
  lemma StrandedExactly(s: State, a: Action, t: nat)
    requires Inv(s) && Enabled(s, a) && !Stranded(s, t)
    ensures var pc, d := At(s, a.t), s.d;
      Stranded(Apply(s, a), t) <==>
        && At(s, t).Queued? && At(s, t).c.Read? && a.Go? && t != a.t
        && (LastWriterGoes(d, pc) || LastBytesGo(d, pc) || LastEndGoes(d, pc))
  {
    assert At(Apply(s, a), t) == if t == a.t then PlanOf(s, a).pc else At(s, t);
    if t == a.t && PlanOf(s, a).pc.Queued? && PlanOf(s, a).pc.c.Read? {
      FallsAsleepInTime(s, a);
    } else if t != a.t && At(s, t).Queued? && At(s, t).c.Read? {
      EndExactly(s, a);
    }
  }
}
