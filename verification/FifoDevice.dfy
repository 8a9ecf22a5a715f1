/**
  The device's critical sections as they run under the mutex, on the real ring
  and the real counters, 32 bits wide. Each is proved to leave what the
  transition system reaches by the steps of the same thread; a count that an
  interruption has left below zero is counted down all around the word.
 */
module FifoDevice {
  import opened Fifo
  import opened FifoBroadcast
  import ByteRing

  // ----- counters of 32 bits

  const INT_MIN := -0x8000_0000
  const INT_MAX := 0x7fff_ffff

  predicate IsInt(n: int) { INT_MIN <= n <= INT_MAX }

  function Inc(n: int): int { if n == INT_MAX then INT_MIN else n + 1 }

  function Dec(n: int): int { if n == INT_MIN then INT_MAX else n - 1 }

  /** How often a counter is decremented before it is zero. */
  function Turns(n: int): (k: int)
    ensures IsInt(n) ==> k >= 0
  {
    if n >= 0 then n else n - INT_MIN + 1 + INT_MAX
  }

  /** The counter after `k` decrements. */
  function Decremented(n: int, k: nat): int {
    if k == 0 then n else Dec(Decremented(n, k - 1))
  }

  lemma {:induction false} TurnsLeft(n: int, k: nat)
    requires IsInt(n) && k <= Turns(n)
    ensures IsInt(Decremented(n, k)) && Turns(Decremented(n, k)) == Turns(n) - k
  {
    if k > 0 {
      TurnsLeft(n, k - 1);
    }
  }

  /** The loop `while (n) n--;` ends, after exactly so many turns. */
  lemma TurnsExactly(n: int, k: nat)
    requires IsInt(n)
    ensures (Decremented(n, k) == 0 && forall j: nat :: j < k ==> Decremented(n, j) != 0) <==> k == Turns(n)
  {
    var m := Turns(n);
    TurnsLeft(n, m);
    assert Decremented(n, m) == 0;
    forall j: nat | j < m
      ensures Decremented(n, j) != 0
    {
      TurnsLeft(n, j);
    }
  }

  // ----- what the sections leave

  /** The variables under the mutex, and the queue semaphores. */
  datatype Core = Core(d: Data, prod: Queue, cons: Queue)

  function On(k: Core, q: Side): Queue { if q == Producers then k.prod else k.cons }

  function Put(k: Core, q: Side, v: Queue): Core { if q == Producers then k.(prod := v) else k.(cons := v) }

  predicate CountersFit(k: Core) { IsInt(k.prod.waiting) && IsInt(k.cons.waiting) }

  /** A broadcast run to its end. */
  function WakeAll(k: Core, q: Side): Core
    requires CountersFit(k)
  {
    Put(k, q, Queue(On(k, q).tokens + Turns(On(k, q).waiting), 0))
  }

  /** From the test of the waiting loop on: asleep, refused, or done with a broadcast to the other side. */
  function TestCore(k: Core, c: Call): (Core, Pc)
    requires CountersFit(k)
  {
    var p := TestPlan(k.d, c);
    if p.pc.Queued? then (Put(k, SideOf(c), Queue(On(k, SideOf(c)).tokens, Inc(On(k, SideOf(c)).waiting))), p.pc)
    else if p.pc.Wake? then (WakeAll(k, p.pc.q).(d := p.d), Leave(c, Done))
    else (k.(d := p.d), p.pc)
  }

  /** open up to its waiting loop. */
  function OpenCore(k: Core, c: Call, t: nat): Core
    requires CountersFit(k) && c.Open?
  {
    WakeAll(k, Other(SideOf(c))).(d := CriticalPlan(k.d, t, c).d)
  }

  /** release to its end. */
  function ReleaseCore(k: Core, c: Call, t: nat): Core
    requires CountersFit(k) && c.Release?
  {
    var p := CriticalPlan(k.d, t, c);
    (if p.pc.Wake? then WakeAll(k, Producers) else k).(d := LeavePlan(p.d, c).d)
  }

  class Device {
    var cbuffer: ByteRing.CBuffer<Byte>
    var numProd: int
    var numCons: int
    var prod: Queue                          // cola_prod and num_bloq_prod
    var cons: Queue                          // cola_cons and num_bloq_cons
    ghost var d: Data                        // the same data, as the transition system sees them

    ghost predicate Valid()
      reads this, cbuffer, cbuffer.data
    {
      && cbuffer.Valid()
      && cbuffer.data.Length == BUF_LEN
      && d.numProd == numProd && d.numCons == numCons
      && d.buf == ByteRing.Contents(cbuffer.Value())
      && CountersFit(Value())
    }

    ghost function Value(): Core
      reads this
    {
      Core(d, prod, cons)
    }

    constructor ()
      ensures Valid() && fresh(cbuffer) && fresh(cbuffer.data)
      ensures Value() == Core(Init().d, Init().prod, Init().cons)
    {
      cbuffer := new ByteRing.CBuffer<Byte>(BUF_LEN);
      numProd, numCons := 0, 0;
      prod, cons := Queue(0, 0), Queue(0, 0);
      d := Init().d;
    }

    /** Signals every waiting producer: one token for each, and none is counted any more. */
    method WakeProducers()
      requires CountersFit(Value())
      modifies `prod
      ensures Value() == WakeAll(old(Value()), Producers)
    {
      while prod.waiting != 0
        invariant IsInt(prod.waiting)
        invariant prod.tokens + Turns(prod.waiting) == old(prod.tokens) + Turns(old(prod.waiting))
        decreases Turns(prod.waiting)
      {
        prod := prod.(waiting := Dec(prod.waiting));
        prod := prod.(tokens := prod.tokens + 1);
      }
    }

    method WakeConsumers()
      requires CountersFit(Value())
      modifies `cons
      ensures Value() == WakeAll(old(Value()), Consumers)
    {
      while cons.waiting != 0
        invariant IsInt(cons.waiting)
        invariant cons.tokens + Turns(cons.waiting) == old(cons.tokens) + Turns(old(cons.waiting))
        decreases Turns(cons.waiting)
      {
        cons := cons.(waiting := Dec(cons.waiting));
        cons := cons.(tokens := cons.tokens + 1);
      }
    }

    /** fifo_read from the mutex on: end of file, asleep, or the bytes and a broadcast to the producers. */
    method ReadSection(c: Call) returns (pc: Pc, bytes: seq<Byte>)
      requires Valid() && c.Read?
      modifies this, cbuffer
      ensures Valid() && cbuffer == old(cbuffer)
      ensures (Value(), pc) == TestCore(old(Value()), c)
      ensures bytes == if pc == Leave(c, Done) then old(d.buf)[..c.len] else []
    {
      bytes := [];
      if numProd == 0 && cbuffer.size == 0 {
        pc := Leave(c, Eof);
      } else if cbuffer.size < c.len {
        cons := cons.(waiting := Inc(cons.waiting));
        pc := Queued(c);
      } else {
        ByteRing.RemoveManyDrops(cbuffer.Value(), c.len);
        bytes := cbuffer.RemoveItems(c.len);
        d := TestPlan(d, c).d;
        WakeProducers();
        pc := Leave(c, Done);
      }
    }

    /** fifo_write from the mutex on: asleep, no reader left, or the bytes in the ring and a broadcast to the consumers. */
    method WriteSection(c: Call) returns (pc: Pc)
      requires Valid() && c.Write? && !TooLong(c)
      modifies this, cbuffer, cbuffer.data
      ensures Valid() && cbuffer == old(cbuffer)
      ensures (Value(), pc) == TestCore(old(Value()), c)
    {
      if numCons > 0 && BUF_LEN - cbuffer.size < |c.bytes| {
        prod := prod.(waiting := Inc(prod.waiting));
        pc := Queued(c);
      } else if numCons == 0 {
        pc := Leave(c, Epipe);
      } else {
        ByteRing.InsertManyAppends(cbuffer.Value(), c.bytes);
        cbuffer.InsertItems(c.bytes);
        d := TestPlan(d, c).d;
        WakeConsumers();
        pc := Leave(c, Done);
      }
    }

    /** fifo_open from the mutex to its waiting loop: the end is counted and the other side woken. */
    method OpenSection(c: Call, t: nat) returns (pc: Pc)
      requires Valid() && c.Open?
      modifies this
      ensures Valid() && cbuffer == old(cbuffer)
      ensures Value() == OpenCore(old(Value()), c, t) && pc == Test(c)
    {
      d := CriticalPlan(d, t, c).d;
      if c.reader {
        numCons := numCons + 1;
        WakeProducers();
      } else {
        numProd := numProd + 1;
        WakeConsumers();
      }
      pc := Test(c);
    }

    /** The waiting loop of fifo_open: asleep while the other side is absent. */
    method OpenTest(c: Call) returns (pc: Pc)
      requires Valid() && c.Open?
      modifies this
      ensures Valid() && cbuffer == old(cbuffer)
      ensures (Value(), pc) == TestCore(old(Value()), c)
    {
      if c.reader && numProd == 0 {
        cons := cons.(waiting := Inc(cons.waiting));
        pc := Queued(c);
      } else if !c.reader && numCons == 0 {
        prod := prod.(waiting := Inc(prod.waiting));
        pc := Queued(c);
      } else {
        pc := Leave(c, Done);
      }
    }

    /** fifo_release from the mutex to its end: the last reader wakes the producers, the last end empties the ring. */
    method ReleaseSection(c: Call, t: nat)
      requires Valid() && c.Release?
      modifies this, cbuffer
      ensures Valid() && cbuffer == old(cbuffer)
      ensures Value() == ReleaseCore(old(Value()), c, t)
    {
      d := CriticalPlan(d, t, c).d;
      if c.reader {
        numCons := numCons - 1;
        if numCons == 0 {
          WakeProducers();
        }
      } else {
        numProd := numProd - 1;
      }
      if !(numProd != 0 || numCons != 0) {
        cbuffer.size := 0;
      }
      d := LeavePlan(d, c).d;
    }
  }

  // ----- the transition system gets there

  function CoreOf(s: State): Core { Core(s.d, s.prod, s.cons) }

  /** Thread `t`, stepping alone, takes the transition system to these variables and to `pc`. */
  ghost predicate Reaches(s: State, t: nat, k: Core, pc: Pc) {
    exists s', n :: Alone(s, t, s', n) && Arrived(s, t, s', k, pc)
  }

  ghost predicate Arrived(s: State, t: nat, s': State, k: Core, pc: Pc) {
    CoreOf(s') == k && At(s', t) == pc && forall u :: u != t ==> At(s', u) == At(s, u)
  }

  /** Counts that neither an interruption nor 2^31 waiters have spoilt. */
  predicate CountsSound(k: Core) {
    0 <= k.prod.waiting < INT_MAX && 0 <= k.cons.waiting < INT_MAX
  }

  /** One step and what follows it. */
  lemma StepThen(s: State, t: nat, k: Core, pc: Pc)
    requires Enabled(s, Go(t)) && Reaches(Apply(s, Go(t)), t, k, pc)
    ensures Reaches(s, t, k, pc)
  {
    var s1 := Apply(s, Go(t));
    var s', n :| Alone(s1, t, s', n) && Arrived(s1, t, s', k, pc);
    AloneStep(s, t);
    AloneThen(s, t, s1, 1, s', n);
    assert Arrived(s, t, s', k, pc);
  }

  lemma ThereAlready(s: State, t: nat)
    ensures Reaches(s, t, CoreOf(s), At(s, t))
  {
    assert Alone(s, t, s, 0) && Arrived(s, t, s, CoreOf(s), At(s, t));
  }

  /** A broadcast run alone ends where `WakeAll` says. */
  lemma BroadcastReaches(s: State, t: nat)
    requires At(s, t).Wake? && !At(s, t).half && CountsSound(CoreOf(s))
    ensures Reaches(s, t, WakeAll(CoreOf(s), At(s, t).q), if At(s, t).c.Open? then Test(At(s, t).c) else Leave(At(s, t).c, Done))
  {
    var q := At(s, t).q;
    BroadcastIssuesAll(s, t, Q(s, q).waiting);
    assert Arrived(s, t, Broadcast(s, t, q), WakeAll(CoreOf(s), q), if At(s, t).c.Open? then Test(At(s, t).c) else Leave(At(s, t).c, Done));
  }

  /** read and write from the mutex on, and the waiting loop of open. */
  lemma TestReached(s: State, t: nat)
    requires At(s, t).Test? || (At(s, t).Critical? && (At(s, t).c.Read? || At(s, t).c.Write?))
    requires CountsSound(CoreOf(s)) && !At(s, t).c.Release?
    ensures Reaches(s, t, TestCore(CoreOf(s), At(s, t).c).0, TestCore(CoreOf(s), At(s, t).c).1)
  {
    var c, s1 := At(s, t).c, Apply(s, Go(t));
    if TestPlan(s.d, c).pc.Wake? {
      BroadcastReaches(s1, t);
    } else {
      ThereAlready(s1, t);
    }
    StepThen(s, t, TestCore(CoreOf(s), c).0, TestCore(CoreOf(s), c).1);
  }

  lemma OpenReached(s: State, t: nat)
    requires At(s, t).Critical? && At(s, t).c.Open? && CountsSound(CoreOf(s))
    ensures Reaches(s, t, OpenCore(CoreOf(s), At(s, t).c, t), Test(At(s, t).c))
  {
    BroadcastReaches(Apply(s, Go(t)), t);
    StepThen(s, t, OpenCore(CoreOf(s), At(s, t).c, t), Test(At(s, t).c));
  }

  lemma LeaveReached(s: State, t: nat)
    requires At(s, t).Leave?
    ensures Reaches(s, t, CoreOf(s).(d := LeavePlan(s.d, At(s, t).c).d), Idle)
  {
    ThereAlready(Apply(s, Go(t)), t);
    StepThen(s, t, CoreOf(s).(d := LeavePlan(s.d, At(s, t).c).d), Idle);
  }

  /** What is reached from where a thread gets is reached. */
  lemma ReachesThen(s: State, t: nat, k: Core, pc: Pc, k2: Core, pc2: Pc)
    requires Reaches(s, t, k, pc)
    requires forall s1 :: CoreOf(s1) == k && At(s1, t) == pc ==> Reaches(s1, t, k2, pc2)
    ensures Reaches(s, t, k2, pc2)
  {
    var s1, m :| Alone(s, t, s1, m) && Arrived(s, t, s1, k, pc);
    assert CoreOf(s1) == k && At(s1, t) == pc;
    var s2, n :| Alone(s1, t, s2, n) && Arrived(s1, t, s2, k2, pc2);
    AloneThen(s, t, s1, m, s2, n);
    assert Arrived(s, t, s2, k2, pc2);
  }

  lemma ReleaseReached(s: State, t: nat)
    requires At(s, t).Critical? && At(s, t).c.Release? && CountsSound(CoreOf(s))
    ensures Reaches(s, t, ReleaseCore(CoreOf(s), At(s, t).c, t), Idle)
  {
    var c, s1, k := At(s, t).c, Apply(s, Go(t)), ReleaseCore(CoreOf(s), At(s, t).c, t);
    if CriticalPlan(s.d, t, c).pc.Wake? {
      BroadcastReaches(s1, t);
      var k1 := WakeAll(CoreOf(s1), Producers);
      forall s2 | CoreOf(s2) == k1 && At(s2, t) == Leave(c, Done)
        ensures Reaches(s2, t, k, Idle)
      {
        LeaveReached(s2, t);
      }
      ReachesThen(s1, t, k1, Leave(c, Done), k, Idle);
    } else {
      LeaveReached(s1, t);
    }
    StepThen(s, t, k, Idle);
  }
}
