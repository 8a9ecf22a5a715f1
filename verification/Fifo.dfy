/**
  The blocking FIFO device as a transition system: any number of threads run
  open, release, read and write calls over one mutex semaphore, two semaphores
  used as wait queues and hand-kept counts of the waiters.

  A step is what one thread does between two points where another thread can
  see the difference. Code under the mutex touches, besides the queue
  semaphores, only variables the mutex protects, so it is cut at every
  operation on a queue semaphore and nowhere else. Each step performs at most
  one operation on the synchronisation variables.
 */
module Fifo {
  import opened Counting
  import ByteRing

  const BUF_LEN: nat := 512

  type Byte = bv8

  /** The wait queue a thread sleeps on: `cola_prod` or `cola_cons`. */
  datatype Side = Producers | Consumers

  datatype Call =
    | Open(h: nat, reader: bool)
    | Release(h: nat, reader: bool)
    | Read(h: nat, len: nat)
    | Write(h: nat, bytes: seq<Byte>)

  datatype Result = Done | Eof | Epipe

  /** Program counters. `Critical`, `Wake`, `Test`, `Leave`, `Undoing` and `RollingBack` hold the mutex. */
  datatype Pc =
    | Idle
    | Enter(c: Call)                         // at the first down_interruptible(&mutex)
    | Critical(c: Call)                      // first statement of the critical section
    | Wake(c: Call, q: Side, half: bool)     // broadcast loop; half: between its two statements
    | Test(c: Call)                          // condition of the waiting loop
    | Leave(c: Call, r: Result)              // about to give the mutex back and return
    | Queued(c: Call)                        // registered, in down_interruptible on its queue
    | Woken(c: Call)                         // took a token, re-acquiring the mutex
    | Undo(c: Call)                          // interrupted on the queue, acquiring the mutex
    | Undoing(c: Call)                       // about to take back its registration
    | Rollback(c: Call)                      // interrupted open, acquiring the mutex
    | RollingBack(c: Call)                   // about to take back num_prod or num_cons

  /** An open file. `counted`: included in num_cons or num_prod. `owner`: the thread opening or releasing it. */
  datatype Handle = Handle(reader: bool, counted: bool, owner: Option<nat>)

  datatype Drain = Taken(bytes: seq<Byte>) | Discarded(bytes: seq<Byte>)

  /** Everything the mutex protects but the waiter counts. */
  datatype Data = Data(
    numProd: int,
    numCons: int,
    buf: seq<Byte>,
    handles: map<nat, Handle>,
    writes: seq<seq<Byte>>,                  // history: accepted writes, in critical-section order
    drains: seq<Drain>,                      // history: what left the buffer, in the same order
    abandoned: set<nat>)                     // history: handles whose release was interrupted at the mutex

  /** A queue semaphore's value, and the counter `num_bloq_*` that goes with it. */
  datatype Queue = Queue(tokens: nat, waiting: int)

  datatype State = State(mutex: nat, prod: Queue, cons: Queue, d: Data, threads: map<nat, Pc>)

  datatype Action = Begin(t: nat, c: Call) | Go(t: nat) | Interrupt(t: nat)

  function Init(): State {
    State(1, Queue(0, 0), Queue(0, 0), Data(0, 0, [], map[], [], [], {}), map[])
  }

  // ----- synchronisation

  datatype Op =
    | Skip
    | TakeMutex
    | GiveMutex
    | Register(q: Side)                      // count++; up(mutex)
    | Unregister(q: Side)                    // count--; up(mutex)
    | Discount(q: Side)                      // count--
    | PutToken(q: Side)                      // up(queue)
    | TakeToken(q: Side)                     // down(queue)

  function Q(s: State, q: Side): Queue {
    if q == Producers then s.prod else s.cons
  }

  function MutexChange(o: Op): int {
    match o
    case TakeMutex => -1
    case GiveMutex => 1
    case Register(_) => 1
    case Unregister(_) => 1
    case _ => 0
  }

  function TokenChange(o: Op, q: Side): int {
    match o
    case PutToken(p) => Bit(p == q)
    case TakeToken(p) => -Bit(p == q)
    case _ => 0
  }

  function WaitingChange(o: Op, q: Side): int {
    match o
    case Register(p) => Bit(p == q)
    case Unregister(p) => -Bit(p == q)
    case Discount(p) => -Bit(p == q)
    case _ => 0
  }

  /** A semaphore never goes below zero: taking one blocks instead. */
  predicate CanDo(s: State, o: Op) {
    s.mutex + MutexChange(o) >= 0 && forall q :: Q(s, q).tokens + TokenChange(o, q) >= 0
  }

  function Changed(v: Queue, o: Op, q: Side): Queue
    requires v.tokens + TokenChange(o, q) >= 0
  {
    Queue(v.tokens + TokenChange(o, q), v.waiting + WaitingChange(o, q))
  }

  // ----- the program

  /** The queue a call waits on. */
  function SideOf(c: Call): Side {
    match c
    case Open(_, r) => if r then Consumers else Producers
    case Release(_, r) => if r then Consumers else Producers
    case Read(_, _) => Consumers
    case Write(_, _) => Producers
  }

  function Other(q: Side): Side {
    if q == Producers then Consumers else Producers
  }

  /** open and release decrement before they signal; read and write signal first. */
  predicate DecFirst(c: Call) { c.Open? || c.Release? }

  predicate TooLong(c: Call) {
    match c
    case Read(_, n) => n > BUF_LEN
    case Write(_, b) => |b| > BUF_LEN
    case _ => false
  }

  /** What the ring does with `items`: append them, the oldest bytes falling out when there is no room. */
  function Push(buf: seq<Byte>, items: seq<Byte>): (r: seq<Byte>)
    ensures |buf| + |items| <= BUF_LEN ==> r == buf + items
    ensures |r| <= BUF_LEN
  {
    ByteRing.Last(buf + items, BUF_LEN)
  }

  /** The condition under which a call goes to sleep. */
  predicate Blocked(d: Data, c: Call) {
    match c
    case Open(_, r) => if r then d.numProd == 0 else d.numCons == 0
    case Release(_, _) => false
    case Read(_, n) => |d.buf| < n
    case Write(_, b) => d.numCons > 0 && BUF_LEN - |d.buf| < |b|
  }

  function SetHandle(d: Data, h: nat, v: Handle): Data {
    d.(handles := d.handles[h := v])
  }

  function AddCount(d: Data, reader: bool, n: int): Data {
    if reader then d.(numCons := d.numCons + n) else d.(numProd := d.numProd + n)
  }

  /** What a thread does next: an operation, the data it leaves and where it goes. */
  datatype Plan = Plan(op: Op, d: Data, pc: Pc)

  function TestPlan(d: Data, c: Call): Plan {
    if c.Read? && d.numProd == 0 && d.buf == [] then Plan(Skip, d, Leave(c, Eof))
    else if Blocked(d, c) then Plan(Register(SideOf(c)), d, Queued(c))
    else match c
      case Read(_, n) =>
        Plan(Skip, d.(buf := d.buf[n..], drains := d.drains + [Taken(d.buf[..n])]), Wake(c, Producers, false))
      case Write(_, b) =>
        if d.numCons == 0 then Plan(Skip, d, Leave(c, Epipe))
        else Plan(Skip, d.(buf := Push(d.buf, b), writes := d.writes + [b]), Wake(c, Consumers, false))
      case _ => Plan(Skip, d, Leave(c, Done))
  }

  function CriticalPlan(d: Data, t: nat, c: Call): Plan {
    match c
    case Open(h, r) =>
      Plan(Skip, SetHandle(AddCount(d, r, 1), h, Handle(r, true, Some(t))), Wake(c, Other(SideOf(c)), false))
    case Release(h, r) =>
      var d1 := SetHandle(AddCount(d, r, -1), h, Handle(r, false, Some(t)));
      Plan(Skip, d1, if r && d1.numCons == 0 then Wake(c, Producers, false) else Leave(c, Done))
    case _ => TestPlan(d, c)
  }

  function WakePlan(d: Data, waiting: int, c: Call, q: Side, half: bool): Plan {
    if !half && waiting == 0 then Plan(Skip, d, if c.Open? then Test(c) else Leave(c, Done))
    else Plan(if half == DecFirst(c) then PutToken(q) else Discount(q), d, Wake(c, q, !half))
  }

  function LeavePlan(d: Data, c: Call): Plan {
    var d1 := match c
      case Open(h, r) => SetHandle(d, h, Handle(r, true, None))
      case Release(_, _) =>
        if d.numProd == 0 && d.numCons == 0 then d.(buf := [], drains := d.drains + [Discarded(d.buf)]) else d
      case _ => d;
    Plan(GiveMutex, d1, Idle)
  }

  /** Where an interrupted call goes once its registration is gone. */
  function Aborted(c: Call): Pc {
    if c.Open? then Rollback(c) else Idle
  }

  function GoPlan(s: State, t: nat, pc: Pc): Plan {
    match pc
    case Idle => Plan(Skip, s.d, Idle)
    case Enter(c) => Plan(TakeMutex, s.d, Critical(c))
    case Critical(c) => CriticalPlan(s.d, t, c)
    case Wake(c, q, half) => WakePlan(s.d, Q(s, q).waiting, c, q, half)
    case Test(c) => TestPlan(s.d, c)
    case Leave(c, _) => LeavePlan(s.d, c)
    case Queued(c) => Plan(TakeToken(SideOf(c)), s.d, Woken(c))
    case Woken(c) => Plan(TakeMutex, s.d, Test(c))
    case Undo(c) => Plan(TakeMutex, s.d, Undoing(c))
    case Undoing(c) => Plan(Unregister(SideOf(c)), s.d, Aborted(c))
    case Rollback(c) => Plan(TakeMutex, s.d, RollingBack(c))
    case RollingBack(c) =>
      Plan(GiveMutex,
           if c.Open? then SetHandle(AddCount(s.d, c.reader, -1), c.h, Handle(c.reader, false, Some(t))) else s.d,
           Idle)
  }

  function InterruptPlan(d: Data, pc: Pc): Plan {
    match pc
    case Enter(c) => Plan(Skip, if c.Release? then d.(abandoned := d.abandoned + {c.h}) else d, Idle)
    case Queued(c) => Plan(Skip, d, Undo(c))
    case Woken(c) => Plan(Skip, d, Aborted(c))
    case _ => Plan(Skip, d, pc)
  }

  function BeginPlan(d: Data, t: nat, c: Call): Plan {
    if TooLong(c) then Plan(Skip, d, Idle)   // -EINVAL
    else Plan(Skip,
              match c
              case Open(h, r) => SetHandle(d, h, Handle(r, false, Some(t)))
              case Release(h, r) => SetHandle(d, h, Handle(r, true, Some(t)))
              case _ => d,
              Enter(c))
  }

  /** A call can start on a fresh handle (open) or on an open handle of the right kind. */
  predicate MayBegin(d: Data, c: Call) {
    match c
    case Open(h, _) => h !in d.handles
    case Release(h, r) => h in d.handles && d.handles[h] == Handle(r, true, None)
    case Read(h, _) => h in d.handles && d.handles[h] == Handle(true, true, None)
    case Write(h, _) => h in d.handles && d.handles[h] == Handle(false, true, None)
  }

  function At(s: State, t: nat): Pc {
    if t in s.threads then s.threads[t] else Idle
  }

  function PlanOf(s: State, a: Action): Plan {
    match a
    case Begin(t, c) => BeginPlan(s.d, t, c)
    case Go(t) => GoPlan(s, t, At(s, t))
    case Interrupt(t) => InterruptPlan(s.d, At(s, t))
  }

  predicate Enabled(s: State, a: Action) {
    && (match a
        case Begin(t, c) => At(s, t) == Idle && MayBegin(s.d, c)
        case Go(t) => At(s, t) != Idle
        case Interrupt(t) => At(s, t).Enter? || At(s, t).Queued? || At(s, t).Woken?)
    && CanDo(s, PlanOf(s, a).op)
  }

  function Perform(s: State, t: nat, p: Plan): State
    requires CanDo(s, p.op)
  {
    assert Q(s, Producers).tokens + TokenChange(p.op, Producers) >= 0;
    assert Q(s, Consumers).tokens + TokenChange(p.op, Consumers) >= 0;
    State(s.mutex + MutexChange(p.op), Changed(s.prod, p.op, Producers), Changed(s.cons, p.op, Consumers),
          p.d, s.threads[t := p.pc])
  }

  function Apply(s: State, a: Action): State
    requires Enabled(s, a)
  {
    Perform(s, a.t, PlanOf(s, a))
  }

  ghost predicate Next(s: State, s': State) {
    exists a :: Enabled(s, a) && s' == Apply(s, a)
  }

  ghost predicate Run(tr: seq<State>) {
    && |tr| > 0
    && tr[0] == Init()
    && forall i :: 0 <= i < |tr| - 1 ==> Next(tr[i], tr[i + 1])
  }

  // ----- counting threads and handles

  datatype Kind = Holding | OnQueue(q: Side) | Decremented(q: Side) | Signalled(q: Side)

  predicate Is(k: Kind, pc: Pc) {
    match k
    case Holding => pc.Critical? || pc.Wake? || pc.Test? || pc.Leave? || pc.Undoing? || pc.RollingBack?
    case OnQueue(q) => (pc.Queued? || pc.Undo? || pc.Undoing?) && SideOf(pc.c) == q
    case Decremented(q) => pc.Wake? && pc.q == q && pc.half && DecFirst(pc.c)
    case Signalled(q) => pc.Wake? && pc.q == q && pc.half && !DecFirst(pc.c)
  }

  function Those(m: map<nat, Pc>, k: Kind): set<nat> {
    set t | t in m && Is(k, m[t])
  }

  function Count(m: map<nat, Pc>, k: Kind): nat {
    |Those(m, k)|
  }

  lemma CountGoto(s: State, t: nat, pc: Pc, k: Kind)
    ensures Count(s.threads[t := pc], k) == Count(s.threads, k) - Bit(Is(k, At(s, t))) + Bit(Is(k, pc))
  {
    OneChange(Those(s.threads, k), Those(s.threads[t := pc], k), t);
  }

  function Counted(m: map<nat, Handle>, reader: bool): set<nat> {
    set h | h in m && m[h].counted && m[h].reader == reader
  }

  lemma CountedUpdate(m: map<nat, Handle>, h: nat, v: Handle, reader: bool)
    ensures |Counted(m[h := v], reader)|
         == |Counted(m, reader)| - Bit(h in m && m[h].counted && m[h].reader == reader) + Bit(v.counted && v.reader == reader)
  {
    OneChange(Counted(m, reader), Counted(m[h := v], reader), h);
  }

  // ----- the invariant

  /** The mutex semaphore is 1 or 0, and 0 exactly when one thread is inside. */
  ghost predicate Exclusive(s: State) {
    s.mutex + Count(s.threads, Holding) == 1
  }

  /** Registrations and tokens balance the threads that are registered, up to a signal step in the middle. */
  ghost predicate Balanced(s: State, q: Side) {
    Q(s, q).waiting + Q(s, q).tokens + Count(s.threads, Decremented(q))
      == Count(s.threads, OnQueue(q)) + Count(s.threads, Signalled(q))
  }

  /** num_cons and num_prod count the registered handles, one by one. */
  ghost predicate HandlesCounted(d: Data) {
    d.numCons == |Counted(d.handles, true)| && d.numProd == |Counted(d.handles, false)|
  }

  /** Program counters at which an open call has its handle counted. */
  predicate Registered(pc: Pc) { !pc.Idle? && !pc.Enter? && !pc.Critical? }

  /** A call in progress has a legal size, and one that opens or releases a handle owns that handle. */
  ghost predicate ThreadOk(d: Data, t: nat, pc: Pc) {
    pc.Idle? ||
    (match pc.c
     case Open(h, r) =>
       h in d.handles && d.handles[h] == Handle(r, Registered(pc), Some(t))
     case Release(h, r) =>
       && (pc.Enter? || pc.Critical? || pc.Wake? || pc.Leave?)
       && h in d.handles && d.handles[h] == Handle(r, !Registered(pc), Some(t))
     case Read(_, n) => n <= BUF_LEN && !pc.Rollback? && !pc.RollingBack?
     case Write(_, b) => |b| <= BUF_LEN && !pc.Rollback? && !pc.RollingBack?)
  }

  function Written(ws: seq<seq<Byte>>): seq<Byte> {
    if ws == [] then [] else Written(ws[..|ws| - 1]) + ws[|ws| - 1]
  }

  function Drained(ds: seq<Drain>): seq<Byte> {
    if ds == [] then [] else Drained(ds[..|ds| - 1]) + ds[|ds| - 1].bytes
  }

  /** First in, first out: everything accepted is what left, in order, followed by what is still held. */
  ghost predicate InOrder(d: Data) {
    |d.buf| <= BUF_LEN && Written(d.writes) == Drained(d.drains) + d.buf
  }

  ghost predicate Inv(s: State) {
    && Exclusive(s)
    && Balanced(s, Producers)
    && Balanced(s, Consumers)
    && HandlesCounted(s.d)
    && (forall t :: t in s.threads ==> ThreadOk(s.d, t, s.threads[t]))
    && InOrder(s.d)
  }

  // ----- every step keeps it

  /** A step that takes or gives the mutex moves its thread into or out of the critical section. */
  lemma MutexDiscipline(s: State, a: Action)
    requires Enabled(s, a)
    ensures Bit(Is(Holding, PlanOf(s, a).pc)) == Bit(Is(Holding, At(s, a.t))) - MutexChange(PlanOf(s, a).op)
  {
  }

  lemma QueueDiscipline(s: State, a: Action, q: Side)
    requires Enabled(s, a)
    ensures var p, pc := PlanOf(s, a), At(s, a.t);
      WaitingChange(p.op, q) + TokenChange(p.op, q) + Bit(Is(Decremented(q), p.pc)) - Bit(Is(Decremented(q), pc))
      == Bit(Is(OnQueue(q), p.pc)) - Bit(Is(OnQueue(q), pc)) + Bit(Is(Signalled(q), p.pc)) - Bit(Is(Signalled(q), pc))
  {
  }

  lemma KeepsExclusive(s: State, a: Action)
    requires Exclusive(s) && Enabled(s, a)
    ensures Exclusive(Apply(s, a))
  {
    MutexDiscipline(s, a);
    CountGoto(s, a.t, PlanOf(s, a).pc, Holding);
  }

  lemma KeepsBalanced(s: State, a: Action, q: Side)
    requires Balanced(s, q) && Enabled(s, a)
    ensures Balanced(Apply(s, a), q)
  {
    QueueDiscipline(s, a, q);
    CountGoto(s, a.t, PlanOf(s, a).pc, OnQueue(q));
    CountGoto(s, a.t, PlanOf(s, a).pc, Decremented(q));
    CountGoto(s, a.t, PlanOf(s, a).pc, Signalled(q));
  }

  lemma KeepsOwnThreadOk(s: State, a: Action)
    requires Enabled(s, a) && ThreadOk(s.d, a.t, At(s, a.t))
    ensures ThreadOk(PlanOf(s, a).d, a.t, PlanOf(s, a).pc)
  {
  }

  /** A step leaves the handles that other threads are opening or releasing alone. */
  lemma OthersHandles(s: State, a: Action, h: nat, t: nat)
    requires Enabled(s, a) && ThreadOk(s.d, a.t, At(s, a.t))
    requires h in s.d.handles && s.d.handles[h].owner == Some(t) && t != a.t
    ensures h in PlanOf(s, a).d.handles && PlanOf(s, a).d.handles[h] == s.d.handles[h]
  {
  }

  lemma KeepsThreadOk(s: State, a: Action, t: nat)
    requires Enabled(s, a)
    requires forall u :: u in s.threads ==> ThreadOk(s.d, u, s.threads[u])
    requires t in s.threads || t == a.t
    ensures ThreadOk(Apply(s, a).d, t, At(Apply(s, a), t))
  {
    assert ThreadOk(s.d, a.t, At(s, a.t));
    if t == a.t {
      KeepsOwnThreadOk(s, a);
    } else {
      var pc := s.threads[t];
      assert ThreadOk(s.d, t, pc);
      if !pc.Idle? && (pc.c.Open? || pc.c.Release?) {
        OthersHandles(s, a, pc.c.h, t);
      }
    }
  }

  lemma KeepsHandlesCounted(s: State, a: Action)
    requires Enabled(s, a) && HandlesCounted(s.d)
    requires ThreadOk(s.d, a.t, At(s, a.t))
    ensures HandlesCounted(Apply(s, a).d)
  {
    var d' := PlanOf(s, a).d;
    var pc := if a.Begin? then Enter(a.c) else At(s, a.t);
    if d'.handles != s.d.handles {
      CountedUpdate(s.d.handles, pc.c.h, d'.handles[pc.c.h], true);
      CountedUpdate(s.d.handles, pc.c.h, d'.handles[pc.c.h], false);
    }
  }

  /** What is read leaves in order. */
  lemma TakenInOrder(writes: seq<seq<Byte>>, drains: seq<Drain>, buf: seq<Byte>, n: nat)
    requires Written(writes) == Drained(drains) + buf && n <= |buf|
    ensures Written(writes) == Drained(drains + [Taken(buf[..n])]) + buf[n..]
  {
    assert (drains + [Taken(buf[..n])])[..|drains|] == drains;
    assert buf == buf[..n] + buf[n..];
  }

  /** What is written comes last. */
  lemma PushedInOrder(writes: seq<seq<Byte>>, drains: seq<Drain>, buf: seq<Byte>, b: seq<Byte>)
    requires Written(writes) == Drained(drains) + buf
    ensures Written(writes + [b]) == Drained(drains) + (buf + b)
  {
    assert (writes + [b])[..|writes|] == writes;
  }

  lemma DiscardedInOrder(writes: seq<seq<Byte>>, drains: seq<Drain>, buf: seq<Byte>)
    requires Written(writes) == Drained(drains) + buf
    ensures Written(writes) == Drained(drains + [Discarded(buf)]) + []
  {
    assert (drains + [Discarded(buf)])[..|drains|] == drains;
  }

  lemma TestInOrder(d: Data, c: Call)
    requires InOrder(d) && d.numCons >= 0 && !TooLong(c)
    ensures InOrder(TestPlan(d, c).d)
  {
    if TestPlan(d, c).pc.Wake? {
      if c.Read? {
        TakenInOrder(d.writes, d.drains, d.buf, c.len);
      } else if c.Write? {
        PushedInOrder(d.writes, d.drains, d.buf, c.bytes);
      }
    }
  }

  lemma LeaveInOrder(d: Data, c: Call)
    requires InOrder(d)
    ensures InOrder(LeavePlan(d, c).d)
  {
    DiscardedInOrder(d.writes, d.drains, d.buf);
  }

  /** The data of a step comes from the waiting loop's test, from leaving, or keeps buffer and histories. */
  lemma DataSources(s: State, a: Action)
    requires Enabled(s, a)
    ensures var d, p, pc := s.d, PlanOf(s, a), At(s, a.t);
      || (p.d.buf == d.buf && p.d.writes == d.writes && p.d.drains == d.drains)
      || (a.Go? && (pc.Critical? || pc.Test?) && p == TestPlan(d, pc.c))
      || (a.Go? && pc.Leave? && p.d == LeavePlan(d, pc.c).d)
  {
  }

  /** A call that fails does so in the waiting loop's test. */
  lemma ResultSources(s: State, a: Action)
    requires Enabled(s, a) && a.Go? && PlanOf(s, a).pc.Leave? && PlanOf(s, a).pc.r != Done
    ensures (At(s, a.t).Critical? || At(s, a.t).Test?) && PlanOf(s, a) == TestPlan(s.d, At(s, a.t).c)
  {
  }

  lemma KeepsInOrder(s: State, a: Action)
    requires Enabled(s, a) && InOrder(s.d) && HandlesCounted(s.d)
    requires ThreadOk(s.d, a.t, At(s, a.t))
    ensures InOrder(Apply(s, a).d)
  {
    DataSources(s, a);
    var pc := At(s, a.t);
    if a.Go? && (pc.Critical? || pc.Test?) {
      TestInOrder(s.d, pc.c);
    } else if a.Go? && pc.Leave? {
      LeaveInOrder(s.d, pc.c);
    }
  }

  lemma InvStep(s: State, a: Action)
    requires Inv(s) && Enabled(s, a)
    ensures Inv(Apply(s, a))
  {
    KeepsExclusive(s, a);
    KeepsBalanced(s, a, Producers);
    KeepsBalanced(s, a, Consumers);
    KeepsHandlesCounted(s, a);
    KeepsInOrder(s, a);
    var s' := Apply(s, a);
    forall t | t in s'.threads
      ensures ThreadOk(s'.d, t, s'.threads[t])
    {
      KeepsThreadOk(s, a, t);
    }
  }

  lemma InvInit()
    ensures Inv(Init())
  {
  }

  lemma InvNext(s: State, s': State)
    requires Inv(s) && Next(s, s')
    ensures Inv(s')
  {
    var a :| Enabled(s, a) && s' == Apply(s, a);
    InvStep(s, a);
  }

  lemma {:induction false} InvRun(tr: seq<State>, i: nat)
    requires Run(tr) && i < |tr|
    ensures Inv(tr[i])
  {
    if i == 0 {
      InvInit();
    } else {
      InvRun(tr, i - 1);
      assert Next(tr[i - 1], tr[i - 1 + 1]);
      InvNext(tr[i - 1], tr[i]);
    }
  }

  // ----- the theorems

  /** At most one thread is in the critical section. */
  lemma MutualExclusion(tr: seq<State>, i: nat, t: nat, u: nat)
    requires Run(tr) && i < |tr|
    requires Is(Holding, At(tr[i], t)) && Is(Holding, At(tr[i], u))
    ensures t == u && tr[i].mutex == 0
  {
    InvRun(tr, i);
    assert t in Those(tr[i].threads, Holding);
    OnlyOne(Those(tr[i].threads, Holding), t, u);
  }

  /** Bytes leave in the order they were accepted, none lost, none twice, and never more than the ring holds. */
  lemma FirstInFirstOut(tr: seq<State>, i: nat)
    requires Run(tr) && i < |tr|
    ensures |tr[i].d.buf| <= BUF_LEN
    ensures Written(tr[i].d.writes) == Drained(tr[i].d.drains) + tr[i].d.buf
  {
    InvRun(tr, i);
  }

  /** A step that accepts a write appends it to what was unread: nothing is overwritten. */
  lemma NoOverwrite(tr: seq<State>, i: nat)
    requires Run(tr) && i + 1 < |tr| && tr[i + 1].d.writes != tr[i].d.writes
    ensures exists b :: tr[i + 1].d.writes == tr[i].d.writes + [b] && tr[i + 1].d.buf == tr[i].d.buf + b
  {
    InvRun(tr, i);
    assert Next(tr[i], tr[i + 1]);
    var a :| Enabled(tr[i], a) && tr[i + 1] == Apply(tr[i], a);
    WriteStep(tr[i], a);
  }

  /** Interruptions included: waiter count plus tokens is the number of registered threads. */
  lemma WaitersConserved(tr: seq<State>, i: nat, q: Side)
    requires Run(tr) && i < |tr|
    ensures Q(tr[i], q).waiting + Q(tr[i], q).tokens + Count(tr[i].threads, Decremented(q))
         == Count(tr[i].threads, OnQueue(q)) + Count(tr[i].threads, Signalled(q))
  {
    InvRun(tr, i);
  }

  /** num_cons and num_prod are never negative: they count the open handles. */
  lemma HandleCounts(tr: seq<State>, i: nat)
    requires Run(tr) && i < |tr|
    ensures tr[i].d.numCons == |Counted(tr[i].d.handles, true)|
    ensures tr[i].d.numProd == |Counted(tr[i].d.handles, false)|
  {
    InvRun(tr, i);
  }

  /** A write is taken whole, and only while there is a reader; one that fails for want of a reader finds none and changes nothing. */
  lemma WriteRules(tr: seq<State>, i: nat, a: Action)
    requires Run(tr) && i < |tr| && Enabled(tr[i], a)
    ensures var s, s', pc := tr[i], Apply(tr[i], a), At(tr[i], a.t);
      var pc' := At(s', a.t);
      && (s'.d.writes != s.d.writes ==>
            pc.c.Write? && s'.d.writes == s.d.writes + [pc.c.bytes] && s.d.numCons > 0 && s'.d.buf == s.d.buf + pc.c.bytes)
      && (a.Go? && pc'.Leave? && pc'.r == Epipe ==> pc'.c.Write? && s.d.numCons == 0 && s'.d == s.d)
      && (a.Begin? && TooLong(a.c) ==> s'.d == s.d && pc' == Idle)
  {
    InvRun(tr, i);
    WriteStep(tr[i], a);
  }

  lemma WriteStep(s: State, a: Action)
    requires Inv(s) && Enabled(s, a)
    ensures var p, pc := PlanOf(s, a), At(s, a.t);
      && (p.d.writes != s.d.writes ==>
            pc.c.Write? && p.d.writes == s.d.writes + [pc.c.bytes] && s.d.numCons > 0 && p.d.buf == s.d.buf + pc.c.bytes)
      && (a.Go? && p.pc.Leave? && p.pc.r == Epipe ==> p.pc.c.Write? && s.d.numCons == 0 && p.d == s.d)
  {
    DataSources(s, a);
    assert ThreadOk(s.d, a.t, At(s, a.t));
    if a.Go? && PlanOf(s, a).pc.Leave? && PlanOf(s, a).pc.r == Epipe {
      ResultSources(s, a);
    }
  }

  /**
    A read takes exactly what it asked for, the oldest bytes; one that meets end of file finds no writer and
    nothing to read. Else bytes leave only when the last end is closed.
   */
  lemma ReadRules(tr: seq<State>, i: nat, a: Action)
    requires Run(tr) && i < |tr| && Enabled(tr[i], a)
    ensures var s, s', pc := tr[i], Apply(tr[i], a), At(tr[i], a.t);
      var pc' := At(s', a.t);
      && (a.Go? && pc'.Leave? && pc'.r == Eof ==> pc'.c.Read? && s.d.numProd == 0 && s.d.buf == [] && s'.d == s.d)
      && (s'.d.drains != s.d.drains && !pc.Leave? ==>
            pc.c.Read? && pc.c.len <= |s.d.buf| && s'.d.buf == s.d.buf[pc.c.len..]
            && s'.d.drains == s.d.drains + [Taken(s.d.buf[..pc.c.len])])
      && (s'.d.drains != s.d.drains && pc.Leave? ==>
            s'.d.drains == s.d.drains + [Discarded(s.d.buf)] && s'.d.buf == [] && s'.d.numProd == 0 && s'.d.numCons == 0)
  {
    InvRun(tr, i);
    ReadStep(tr[i], a);
  }

  lemma ReadStep(s: State, a: Action)
    requires Inv(s) && Enabled(s, a)
    ensures var p, pc := PlanOf(s, a), At(s, a.t);
      && (a.Go? && p.pc.Leave? && p.pc.r == Eof ==> p.pc.c.Read? && s.d.numProd == 0 && s.d.buf == [] && p.d == s.d)
      && (p.d.drains != s.d.drains && !pc.Leave? ==>
            pc.c.Read? && pc.c.len <= |s.d.buf| && p.d.buf == s.d.buf[pc.c.len..]
            && p.d.drains == s.d.drains + [Taken(s.d.buf[..pc.c.len])])
      && (p.d.drains != s.d.drains && pc.Leave? ==>
            p.d.drains == s.d.drains + [Discarded(s.d.buf)] && p.d.buf == [] && p.d.numProd == 0 && p.d.numCons == 0)
  {
    DataSources(s, a);
    assert ThreadOk(s.d, a.t, At(s, a.t));
    if a.Go? && PlanOf(s, a).pc.Leave? && PlanOf(s, a).pc.r == Eof {
      ResultSources(s, a);
    }
  }

  /**
    Who waits and for what. An open waits exactly while the other side is absent; a read exactly while it lacks
    bytes, unless nobody writes and nothing at all is left; a write exactly while it lacks room and has a reader.
   */
  lemma WaitingRules(tr: seq<State>, i: nat, t: nat)
    requires Run(tr) && i < |tr| && Enabled(tr[i], Go(t))
    requires var pc := At(tr[i], t); pc.Test? || (pc.Critical? && (pc.c.Read? || pc.c.Write?))
    ensures var d, c, pc' := tr[i].d, At(tr[i], t).c, At(Apply(tr[i], Go(t)), t);
      && (pc'.Queued? || pc'.Leave? || pc'.Wake?) && pc'.c == c && (pc'.Queued? ==> Apply(tr[i], Go(t)).d == d)
      && match c
         case Open(_, reader) => pc'.Queued? <==> if reader then d.numProd == 0 else d.numCons == 0
         case Read(_, n) => pc'.Queued? <==> |d.buf| < n && (d.numProd > 0 || |d.buf| > 0)
         case Write(_, b) => pc'.Queued? <==> |d.buf| + |b| > BUF_LEN && d.numCons > 0
         case Release(_, _) => false
  {
    InvRun(tr, i);
    assert ThreadOk(tr[i].d, t, At(tr[i], t));
  }
}
