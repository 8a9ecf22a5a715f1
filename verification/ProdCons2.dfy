/**
  The second producer/consumer module: one mutex, a queue semaphore and a count
  of waiters for each side, and one signal for each item or gap. Producers and
  consumers run the same code with the sides exchanged.
 */
module ProdCons2 {
  import opened Counting
  import ProdCons1

  const MAX_ITEMS: nat := ProdCons1.MAX_ITEMS

  datatype Side = Producer | Consumer

  /** A call: a producer brings its item, a consumer nothing. */
  datatype Call = Put(x: nat) | Get

  datatype Pc =
    | Idle
    | Enter(c: Call)
    | Test(c: Call)                          // inside, at the condition of the loop
    | Signal(c: Call, item: Option<nat>)     // inside, done with the ring; a consumer has its item
    | Signalled(c: Call, item: Option<nat>)  // inside, token issued, count not yet decremented
    | Leave(c: Call, item: Option<nat>)      // inside, about to leave
    | Queued(c: Call)
    | Woken(c: Call)
    | Undo(c: Call)
    | Undoing(c: Call)                       // inside
    | Freeing(x: nat)                        // prints the item and frees it

  datatype Queue = Queue(tokens: nat, waiting: int)

  /** Ring, places of the items and histories, as in the first module. */
  type Data = ProdCons1.Data

  datatype State = State(mtx: nat, prod: Queue, cons: Queue, d: Data, threads: map<nat, Pc>)

  datatype Action = Begin(t: nat, c: Call) | Go(t: nat) | Interrupt(t: nat)

  function Init(): State {
    State(1, Queue(0, 0), Queue(0, 0), ProdCons1.Init().d, map[])
  }

  function At(s: State, t: nat): Pc {
    if t in s.threads then s.threads[t] else Idle
  }

  function SideOf(c: Call): Side { if c.Put? then Producer else Consumer }

  function Other(q: Side): Side { if q == Producer then Consumer else Producer }

  function Q(s: State, q: Side): Queue { if q == Producer then s.prod else s.cons }

  /** One operation on the synchronisation variables. */
  datatype Op = Skip | TakeMutex | GiveMutex | Register(q: Side) | Unregister(q: Side) | PutToken(q: Side) | TakeToken(q: Side) | Discount(q: Side)

  function MutexChange(o: Op): int {
    if o.TakeMutex? then -1 else Bit(o.GiveMutex? || o.Register? || o.Unregister?)
  }

  function TokenChange(o: Op, q: Side): int {
    Bit(o.PutToken? && o.q == q) - Bit(o.TakeToken? && o.q == q)
  }

  function WaitingChange(o: Op, q: Side): int {
    Bit(o.Register? && o.q == q) - Bit((o.Unregister? || o.Discount?) && o.q == q)
  }

  /** The operation, the data it leaves, and where the thread goes. */
  datatype Plan = Plan(op: Op, d: Data, pc: Pc)

  /** A write that returns early forgets its item; a read has none yet. */
  function Forget(d: Data, c: Call): Data {
    if c.Put? then d.(place := d.place[c.x := ProdCons1.Lost]) else d
  }

  function TestPlan(d: Data, t: nat, c: Call): Plan {
    match c
    case Put(x) =>
      if |d.ring| == MAX_ITEMS then Plan(Register(Producer), d, Queued(c))
      else
        Plan(Skip,
             d.(ring := ProdCons1.Insert(d.ring, x), place := d.place[x := ProdCons1.InRing], inserted := d.inserted + [x]),
             Signal(c, None))
    case Get =>
      if |d.ring| == 0 then Plan(Register(Consumer), d, Queued(c))
      else
        var x := d.ring[0];
        Plan(Skip,
             d.(ring := ProdCons1.Take(d.ring).0, place := d.place[x := ProdCons1.With(t)], removed := d.removed + [x]),
             Signal(c, Some(x)))
  }

  function GoPlan(s: State, t: nat, pc: Pc): Plan {
    match pc
    case Idle => Plan(Skip, s.d, Idle)
    case Enter(c) => Plan(TakeMutex, s.d, Test(c))
    case Test(c) => TestPlan(s.d, t, c)
    case Signal(c, item) =>
      var q := Other(SideOf(c));
      if Q(s, q).waiting > 0 then Plan(PutToken(q), s.d, Signalled(c, item)) else Plan(Skip, s.d, Leave(c, item))
    case Signalled(c, item) => Plan(Discount(Other(SideOf(c))), s.d, Leave(c, item))
    case Leave(c, item) => Plan(GiveMutex, s.d, if item.Some? then Freeing(item.value) else Idle)
    case Queued(c) => Plan(TakeToken(SideOf(c)), s.d, Woken(c))
    case Woken(c) => Plan(TakeMutex, s.d, Test(c))
    case Undo(c) => Plan(TakeMutex, s.d, Undoing(c))
    case Undoing(c) => Plan(Unregister(SideOf(c)), Forget(s.d, c), Idle)
    case Freeing(x) => Plan(Skip, ProdCons1.Free(s.d, x), Idle)
  }

  function InterruptPlan(d: Data, pc: Pc): Plan {
    match pc
    case Enter(c) => Plan(Skip, Forget(d, c), Idle)
    case Queued(c) => Plan(Skip, d, Undo(c))
    case Woken(c) => Plan(Skip, Forget(d, c), Idle)
    case _ => Plan(Skip, d, pc)
  }

  function PlanOf(s: State, a: Action): Plan {
    match a
    case Begin(t, c) => Plan(Skip, if c.Put? then s.d.(place := s.d.place[c.x := ProdCons1.With(t)]) else s.d, Enter(c))
    case Interrupt(t) => InterruptPlan(s.d, At(s, t))
    case Go(t) => GoPlan(s, t, At(s, t))
  }

  predicate Enabled(s: State, a: Action) {
    && (match a
        case Begin(t, c) => At(s, t).Idle? && (c.Put? ==> c.x !in s.d.place)
        case Go(t) => !At(s, t).Idle?
        case Interrupt(t) => At(s, t).Enter? || At(s, t).Queued? || At(s, t).Woken?)
    && (PlanOf(s, a).op.TakeMutex? ==> s.mtx > 0)
    && (PlanOf(s, a).op.TakeToken? ==> Q(s, PlanOf(s, a).op.q).tokens > 0)
  }

  function Changed(v: Queue, o: Op, q: Side): Queue
    requires o.TakeToken? && o.q == q ==> v.tokens > 0
  {
    Queue(v.tokens + TokenChange(o, q), v.waiting + WaitingChange(o, q))
  }

  function Apply(s: State, a: Action): State
    requires Enabled(s, a)
  {
    var p := PlanOf(s, a);
    State(s.mtx + MutexChange(p.op), Changed(s.prod, p.op, Producer), Changed(s.cons, p.op, Consumer),
          p.d, s.threads[a.t := p.pc])
  }

  ghost predicate Next(s: State, s': State) {
    exists a :: Enabled(s, a) && s' == Apply(s, a)
  }

  ghost predicate Run(tr: seq<State>) {
    && |tr| > 0
    && tr[0] == Init()
    && forall i :: 0 <= i < |tr| - 1 ==> Next(tr[i], tr[i + 1])
  }

  // ----- the invariant

  datatype Kind = Inside | OnQueue(q: Side) | Undiscounted(q: Side) | Woke(q: Side) | Coming(q: Side)

  predicate Is(k: Kind, pc: Pc) {
    match k
    case Inside => pc.Test? || pc.Signal? || pc.Signalled? || pc.Leave? || pc.Undoing?
    case OnQueue(q) => (pc.Queued? || pc.Undo? || pc.Undoing?) && SideOf(pc.c) == q
    case Undiscounted(q) => pc.Signalled? && Other(SideOf(pc.c)) == q
    case Woke(q) => pc.Woken? && SideOf(pc.c) == q
    case Coming(q) => ((pc.Woken? || pc.Test?) && SideOf(pc.c) == q) || (pc.Signal? && Other(SideOf(pc.c)) == q)
  }

  function Those(m: map<nat, Pc>, k: Kind): set<nat> {
    set t | t in m && Is(k, m[t])
  }

  function Count(m: map<nat, Pc>, k: Kind): nat { |Those(m, k)| }

  ghost predicate Balanced(s: State, q: Side) {
    Q(s, q).waiting + Q(s, q).tokens == Count(s.threads, OnQueue(q)) + Count(s.threads, Undiscounted(q))
  }

  ghost predicate Inv(s: State) {
    && s.mtx + Count(s.threads, Inside) == 1
    && Balanced(s, Producer)
    && Balanced(s, Consumer)
    && |s.d.ring| <= MAX_ITEMS
    && ProdCons1.InOrder(s.d)
    && ProdCons1.DataOk(s.d)
    && (forall t :: HasOwn(s.d, t, At(s, t)))
    && (forall x :: x in s.d.place ==> Located(s, x))
  }

  /** The item a thread has to itself. */
  function Own(pc: Pc): Option<nat> {
    match pc
    case Idle => None
    case Signal(_, item) => item
    case Signalled(_, item) => item
    case Leave(_, item) => item
    case Freeing(x) => Some(x)
    case _ => if pc.c.Put? then Some(pc.c.x) else None
  }

  ghost predicate HasOwn(d: Data, t: nat, pc: Pc) {
    Own(pc).Some? ==> Own(pc).value in d.place && d.place[Own(pc).value] == ProdCons1.With(t)
  }

  /** Item `x` is where its place says: with its one thread, in the ring, freed, or forgotten. */
  ghost predicate Located(s: State, x: nat)
    requires x in s.d.place
  {
    match s.d.place[x]
    case With(t) => Own(At(s, t)) == Some(x)
    case InRing => x in s.d.ring
    case Freed => x in s.d.freed
    case Lost => true
  }

  lemma Discipline(s: State, a: Action, q: Side)
    requires Enabled(s, a)
    ensures var o, pc, pc' := PlanOf(s, a).op, At(s, a.t), PlanOf(s, a).pc;
      && MutexChange(o) + Bit(Is(Inside, pc')) == Bit(Is(Inside, pc))
      && WaitingChange(o, q) + TokenChange(o, q)
           == Bit(Is(OnQueue(q), pc')) - Bit(Is(OnQueue(q), pc)) + Bit(Is(Undiscounted(q), pc')) - Bit(Is(Undiscounted(q), pc))
  {
  }

  lemma KeepsBalanced(s: State, a: Action, q: Side)
    requires Enabled(s, a) && Balanced(s, q)
    ensures Balanced(Apply(s, a), q)
  {
    Discipline(s, a, q);
    OneChange(Those(s.threads, OnQueue(q)), Those(Apply(s, a).threads, OnQueue(q)), a.t);
    OneChange(Those(s.threads, Undiscounted(q)), Those(Apply(s, a).threads, Undiscounted(q)), a.t);
  }

  lemma KeepsExclusive(s: State, a: Action)
    requires Enabled(s, a) && s.mtx + Count(s.threads, Inside) == 1
    ensures Apply(s, a).mtx + Count(Apply(s, a).threads, Inside) == 1
  {
    Discipline(s, a, Producer);
    OneChange(Those(s.threads, Inside), Those(Apply(s, a).threads, Inside), a.t);
  }

  lemma KeepsOrder(s: State, a: Action)
    requires Enabled(s, a) && |s.d.ring| <= MAX_ITEMS && ProdCons1.InOrder(s.d)
    ensures |PlanOf(s, a).d.ring| <= MAX_ITEMS && ProdCons1.InOrder(PlanOf(s, a).d)
  {
    if a.Go? && At(s, a.t).Test? && At(s, a.t).c.Get? && s.d.ring != [] {
      assert s.d.ring == [s.d.ring[0]] + s.d.ring[1..];
    }
  }

  lemma KeepsData(s: State, a: Action)
    requires Enabled(s, a) && |s.d.ring| <= MAX_ITEMS && ProdCons1.DataOk(s.d) && HasOwn(s.d, a.t, At(s, a.t))
    ensures ProdCons1.DataOk(PlanOf(s, a).d)
  {
  }

  /** A step gives or takes only the item it moves. */
  lemma OwnFollows(s: State, a: Action)
    requires Enabled(s, a) && ProdCons1.DataOk(s.d) && HasOwn(s.d, a.t, At(s, a.t))
    ensures var p := PlanOf(s, a);
      && HasOwn(p.d, a.t, p.pc)
      && forall x, u :: x in s.d.place && s.d.place[x] == ProdCons1.With(u) && u != a.t ==> x in p.d.place && p.d.place[x] == ProdCons1.With(u)
  {
  }

  /** Item `x` is where its place says, as far as thread `t` at `pc` is concerned. */
  ghost predicate LocatedFor(d: Data, x: nat, t: nat, pc: Pc) {
    x in d.place &&
    match d.place[x]
    case With(u) => u == t ==> Own(pc) == Some(x)
    case InRing => x in d.ring
    case Freed => x in d.freed
    case Lost => true
  }

  lemma PlanLocates(s: State, a: Action, x: nat)
    requires Enabled(s, a) && x in PlanOf(s, a).d.place && (x in s.d.place ==> LocatedFor(s.d, x, a.t, At(s, a.t)))
    requires |s.d.ring| <= MAX_ITEMS && ProdCons1.DataOk(s.d) && HasOwn(s.d, a.t, At(s, a.t))
    ensures var p := PlanOf(s, a);
      && LocatedFor(p.d, x, a.t, p.pc)
      && (p.d.place[x].With? && p.d.place[x].t != a.t ==> x in s.d.place && s.d.place[x] == p.d.place[x])
  {
    if a.Go? && At(s, a.t).Test? && At(s, a.t).c.Get? && s.d.ring != [] {
      assert s.d.ring == [s.d.ring[0]] + s.d.ring[1..];
    }
  }

  lemma KeepsItems(s: State, a: Action)
    requires Inv(s) && Enabled(s, a)
    ensures var s' := Apply(s, a);
      && (forall t :: HasOwn(s'.d, t, At(s', t)))
      && (forall x :: x in s'.d.place ==> Located(s', x))
  {
    var s' := Apply(s, a);
    assert HasOwn(s.d, a.t, At(s, a.t));
    OwnFollows(s, a);
    forall t
      ensures HasOwn(s'.d, t, At(s', t))
    {
      assert At(s', t) == if t == a.t then PlanOf(s, a).pc else At(s, t);
      assert HasOwn(s.d, t, At(s, t));
    }
    forall x | x in s'.d.place
      ensures Located(s', x)
    {
      PlanLocates(s, a, x);
      assert forall t :: At(s', t) == if t == a.t then PlanOf(s, a).pc else At(s, t);
    }
  }

  lemma InvStep(s: State, a: Action)
    requires Inv(s) && Enabled(s, a)
    ensures Inv(Apply(s, a))
  {
    KeepsExclusive(s, a);
    KeepsBalanced(s, a, Producer);
    KeepsBalanced(s, a, Consumer);
    KeepsOrder(s, a);
    assert HasOwn(s.d, a.t, At(s, a.t));
    KeepsData(s, a);
    KeepsItems(s, a);
  }

  lemma InvInit()
    ensures Inv(Init())
  {
  }

  lemma InvNext(s: State, s': State)
    requires Inv(s) && Next(s, s')
    ensures Inv(s')
  {
    var a :| Enabled(s, a) && s' == Apply(s, a);
    InvStep(s, a);
  }

  lemma {:induction false} InvRun(tr: seq<State>, i: nat)
    requires Run(tr) && i < |tr|
    ensures Inv(tr[i])
  {
    if i == 0 {
      InvInit();
    } else {
      InvRun(tr, i - 1);
      assert Next(tr[i - 1], tr[i - 1 + 1]);
      InvNext(tr[i - 1], tr[i]);
    }
  }

  // ----- the theorems

  /** Interruptions included: waiter count plus tokens is the number of registered threads, and one more inside a signal. */
  lemma WaitersConserved(tr: seq<State>, i: nat, q: Side)
    requires Run(tr) && i < |tr|
    ensures Q(tr[i], q).waiting + Q(tr[i], q).tokens == Count(tr[i].threads, OnQueue(q)) + Count(tr[i].threads, Undiscounted(q))
    ensures Count(tr[i].threads, Inside) <= 1
  {
    InvRun(tr, i);
  }

  /** The ring is never overrun, and items leave in the order they came. */
  lemma FirstInFirstOut(tr: seq<State>, i: nat)
    requires Run(tr) && i < |tr|
    ensures |tr[i].d.ring| <= MAX_ITEMS && tr[i].d.inserted == tr[i].d.removed + tr[i].d.ring
  {
    InvRun(tr, i);
  }

  // ----- items

  /** Items are freed once at most, and not while they are in the ring. */
  lemma FreedOnce(tr: seq<State>, i: nat)
    requires Run(tr) && i < |tr|
    ensures forall j, k :: 0 <= j < k < |tr[i].d.freed| ==> tr[i].d.freed[j] != tr[i].d.freed[k]
    ensures forall x :: x in tr[i].d.ring ==> x !in tr[i].d.freed
  {
    InvRun(tr, i);
  }

  /** Every item ever allocated is in one thread's hands, in the ring, freed, or forgotten. */
  lemma EveryItemAccountedFor(tr: seq<State>, i: nat, x: nat)
    requires Run(tr) && i < |tr| && x in tr[i].d.place
    ensures var s := tr[i];
      && ((exists t :: Own(At(s, t)) == Some(x)) || x in s.d.ring || x in s.d.freed || s.d.place[x] == ProdCons1.Lost)
      && (forall t, u :: Own(At(s, t)) == Some(x) && Own(At(s, u)) == Some(x) ==> t == u)
      && (s.d.place[x] == ProdCons1.Lost ==> x !in s.d.ring && x !in s.d.freed && forall t :: Own(At(s, t)) != Some(x))
  {
    InvRun(tr, i);
    var s := tr[i];
    assert Located(s, x);
    forall t | Own(At(s, t)) == Some(x)
      ensures s.d.place[x] == ProdCons1.With(t)
    {
      assert HasOwn(s.d, t, At(s, t));
    }
  }

  /** An interrupted write of `x` returns: at once, or after taking its registration back. */
  predicate ReturnsEarly(s: State, a: Action, x: nat) {
    || (a.Interrupt? && (At(s, a.t) == Enter(Put(x)) || At(s, a.t) == Woken(Put(x))))
    || (a.Go? && At(s, a.t) == Undoing(Put(x)))
  }

  /** An item is forgotten exactly when its write returns interrupted, and then for good. */
  lemma LostExactly(s: State, a: Action, x: nat)
    requires Inv(s) && Enabled(s, a)
    ensures x in Apply(s, a).d.place && Apply(s, a).d.place[x] == ProdCons1.Lost
      <==> (x in s.d.place && s.d.place[x] == ProdCons1.Lost) || ReturnsEarly(s, a, x)
  {
    assert HasOwn(s.d, a.t, At(s, a.t));
  }

  // ----- without interruptions

  ghost predicate CalmNext(s: State, s': State) {
    exists a: Action :: !a.Interrupt? && Enabled(s, a) && s' == Apply(s, a)
  }

  ghost predicate CalmRun(tr: seq<State>) {
    && |tr| > 0
    && tr[0] == Init()
    && forall i :: 0 <= i < |tr| - 1 ==> CalmNext(tr[i], tr[i + 1])
  }

  /** The counts cover the tokens issued and not yet discounted; nobody takes a registration back. */
  ghost predicate CalmInv(s: State) {
    && (forall t :: !At(s, t).Undo? && !At(s, t).Undoing?)
    && (forall t :: At(s, t).Signalled? ==> Q(s, Other(SideOf(At(s, t).c))).waiting > 0)
    && s.prod.waiting >= 0 && s.cons.waiting >= 0
  }

  lemma OnlyInside(s: State, t: nat, u: nat)
    requires s.mtx + Count(s.threads, Inside) == 1 && Is(Inside, At(s, t)) && Is(Inside, At(s, u))
    ensures t == u
  {
    OnlyOne(Those(s.threads, Inside), t, u);
  }

  /** What a calm step does, seen from its thread. */
  lemma CalmPlan(s: State, a: Action, q: Side)
    requires Enabled(s, a) && !a.Interrupt? && !At(s, a.t).Undo? && !At(s, a.t).Undoing?
    requires At(s, a.t).Signalled? ==> Q(s, Other(SideOf(At(s, a.t).c))).waiting > 0
    ensures var p := PlanOf(s, a);
      && !p.pc.Undo? && !p.pc.Undoing?
      && (p.pc.Signalled? ==> Q(s, Other(SideOf(p.pc.c))).waiting > 0 && p.op.PutToken?)
      && (WaitingChange(p.op, q) < 0 ==> At(s, a.t).Signalled? && q == Other(SideOf(At(s, a.t).c)) && WaitingChange(p.op, q) == -1)
  {
  }

  /** Who is in the middle of a signal stays covered. */
  lemma SignalCovered(s: State, a: Action, t: nat)
    requires Inv(s) && CalmInv(s) && Enabled(s, a) && !a.Interrupt? && At(Apply(s, a), t).Signalled?
    ensures var q := Other(SideOf(At(Apply(s, a), t).c)); Q(Apply(s, a), q).waiting > 0
  {
    var q := Other(SideOf(At(Apply(s, a), t).c));
    CalmPlan(s, a, q);
    assert At(Apply(s, a), t) == if t == a.t then PlanOf(s, a).pc else At(s, t);
    if t != a.t && WaitingChange(PlanOf(s, a).op, q) < 0 {
      OnlyInside(s, a.t, t);
    }
  }

  lemma CalmInvStep(s: State, a: Action)
    requires Inv(s) && CalmInv(s) && Enabled(s, a) && !a.Interrupt?
    ensures CalmInv(Apply(s, a))
  {
    var s' := Apply(s, a);
    CalmPlan(s, a, Producer);
    CalmPlan(s, a, Consumer);
    forall t
      ensures !At(s', t).Undo? && !At(s', t).Undoing?
    {
      assert At(s', t) == if t == a.t then PlanOf(s, a).pc else At(s, t);
    }
    forall t | At(s', t).Signalled?
      ensures Q(s', Other(SideOf(At(s', t).c))).waiting > 0
    {
      SignalCovered(s, a, t);
    }
  }

  lemma CalmInvInit()
    ensures CalmInv(Init())
  {
  }

  lemma CalmInvNext(s: State, s': State)
    requires Inv(s) && CalmInv(s) && CalmNext(s, s')
    ensures Inv(s') && CalmInv(s')
  {
    var a: Action :| !a.Interrupt? && Enabled(s, a) && s' == Apply(s, a);
    InvStep(s, a);
    CalmInvStep(s, a);
  }

  /** Without interruptions no count is ever negative. */
  lemma {:induction false} CountsNotNegative(tr: seq<State>, i: nat)
    requires CalmRun(tr) && i < |tr|
    ensures Inv(tr[i]) && CalmInv(tr[i])
  {
    if i == 0 {
      InvInit();
      CalmInvInit();
    } else {
      CountsNotNegative(tr, i - 1);
      assert CalmNext(tr[i - 1], tr[i - 1 + 1]);
      CalmInvNext(tr[i - 1], tr[i]);
    }
  }

  // ----- wake-ups

  /** What a side waits for: items, or gaps. */
  function Goods(s: State, q: Side): int {
    if q == Consumer then |s.d.ring| else MAX_ITEMS - |s.d.ring|
  }

  /** Waiters nobody has signalled yet. */
  function Unsignalled(s: State, q: Side): int {
    Q(s, q).waiting - Count(s.threads, Undiscounted(q))
  }

  /** Signals on their way: tokens, threads woken or testing, and one about to signal. */
  function OnTheWay(s: State, q: Side): int {
    Q(s, q).tokens + Count(s.threads, Coming(q))
  }

  /** While some waiter has not been signalled, somebody is on the way for everything there is to take. */
  ghost predicate Enough(s: State, q: Side) {
    Unsignalled(s, q) > 0 ==> Goods(s, q) <= OnTheWay(s, q)
  }

  /** An interruption takes away a woken thread that something in the ring was waiting for. */
  ghost predicate WokenLost(s: State, a: Action, q: Side) {
    && a.Interrupt? && At(s, a.t).Woken? && SideOf(At(s, a.t).c) == q
    && Unsignalled(s, q) > 0 && Goods(s, q) == OnTheWay(s, q)
  }

  /** What one step can do to the balance of `q`, seen from its thread. */
  lemma StepBalance(s: State, a: Action, q: Side)
    requires Enabled(s, a) && |s.d.ring| <= MAX_ITEMS
    ensures var o, pc, pc', s' := PlanOf(s, a).op, At(s, a.t), PlanOf(s, a).pc, Apply(s, a);
      var coming := TokenChange(o, q) + Bit(Is(Coming(q), pc')) - Bit(Is(Coming(q), pc));
      var unsignalled := WaitingChange(o, q) - Bit(Is(Undiscounted(q), pc')) + Bit(Is(Undiscounted(q), pc));
      && (unsignalled > 0 ==> Goods(s', q) == 0)
      && (a.Interrupt? ==>
            (unsignalled == 0 && Goods(s', q) == Goods(s, q) && coming == -Bit(pc.Woken? && SideOf(pc.c) == q)))
      && (!a.Interrupt? ==>
            (Goods(s', q) - Goods(s, q) <= coming || Goods(s', q) == 0
             || (pc.Signal? && Q(s, q).waiting <= 0 && unsignalled == 0)))
  {
  }

  /** Somebody stays on the way for everything, unless an interruption takes a woken thread away. */
  lemma EnoughExactly(s: State, a: Action, q: Side)
    requires Inv(s) && Enabled(s, a) && Enough(s, q)
    ensures !Enough(Apply(s, a), q) <==> WokenLost(s, a, q)
  {
    StepBalance(s, a, q);
    OneChange(Those(s.threads, Coming(q)), Those(Apply(s, a).threads, Coming(q)), a.t);
    OneChange(Those(s.threads, Undiscounted(q)), Those(Apply(s, a).threads, Undiscounted(q)), a.t);
  }

  lemma EnoughInit(q: Side)
    ensures Enough(Init(), q)
  {
  }

  lemma EnoughNext(s: State, s': State, q: Side)
    requires Inv(s) && Enough(s, q) && CalmNext(s, s')
    ensures Enough(s', q)
  {
    var a: Action :| !a.Interrupt? && Enabled(s, a) && s' == Apply(s, a);
    EnoughExactly(s, a, q);
  }

  lemma {:induction false} EnoughRun(tr: seq<State>, i: nat, q: Side)
    requires CalmRun(tr) && i < |tr|
    ensures Enough(tr[i], q)
  {
    if i == 0 {
      EnoughInit(q);
    } else {
      EnoughRun(tr, i - 1, q);
      CountsNotNegative(tr, i - 1);
      assert CalmNext(tr[i - 1], tr[i - 1 + 1]);
      EnoughNext(tr[i - 1], tr[i], q);
    }
  }

  lemma FreeMutex(s: State, q: Side)
    requires s.mtx + Count(s.threads, Inside) == 1 && s.mtx > 0
    ensures Count(s.threads, Undiscounted(q)) == 0 && Count(s.threads, Coming(q)) == Count(s.threads, Woke(q))
  {
    assert Those(s.threads, Inside) == {};
    assert Those(s.threads, Undiscounted(q)) <= Those(s.threads, Inside);
    forall t | t in s.threads
      ensures t in Those(s.threads, Coming(q)) <==> t in Those(s.threads, Woke(q))
    {
      assert t !in Those(s.threads, Inside);
    }
    assert Those(s.threads, Coming(q)) == Those(s.threads, Woke(q));
  }

  /**
    Without interruptions, whenever the mutex is free and more consumers sleep than tokens are out, there are no more
    items than tokens and woken consumers to take them; and so with producers and gaps.
   */
  lemma NoLostWakeup(tr: seq<State>, i: nat, q: Side)
    requires CalmRun(tr) && i < |tr| && tr[i].mtx > 0
    requires Count(tr[i].threads, OnQueue(q)) > Q(tr[i], q).tokens
    ensures Goods(tr[i], q) <= Q(tr[i], q).tokens + Count(tr[i].threads, Woke(q))
  {
    CountsNotNegative(tr, i);
    EnoughRun(tr, i, q);
    FreeMutex(tr[i], q);
  }

  // ----- who can go on

  /** A write begins with its item in hand; both calls begin at the mutex. */
  lemma CallsBegin(s: State, t: nat, x: nat)
    ensures Enabled(s, Begin(t, Put(x))) <==> At(s, t) == Idle && x !in s.d.place
    ensures Enabled(s, Begin(t, Get)) <==> At(s, t) == Idle
    ensures Enabled(s, Begin(t, Put(x))) ==>
      At(Apply(s, Begin(t, Put(x))), t) == Enter(Put(x)) && Apply(s, Begin(t, Put(x))).d.place == s.d.place[x := ProdCons1.With(t)]
    ensures Enabled(s, Begin(t, Get)) ==> At(Apply(s, Begin(t, Get)), t) == Enter(Get)
  {
  }

  /** A call is interrupted only at its interruptible waits, and goes to sleep exactly on a full or an empty ring. */
  lemma WaitsExactly(s: State, t: nat)
    ensures Enabled(s, Interrupt(t)) <==> At(s, t).Enter? || At(s, t).Queued? || At(s, t).Woken?
    ensures At(s, t).Test? ==>
      && Enabled(s, Go(t))
      && (At(Apply(s, Go(t)), t) == Queued(At(s, t).c) <==> |s.d.ring| == if At(s, t).c == Get then 0 else 5)
  {
  }

  /** A thread that cannot go on waits for the mutex or for a token of its side. */
  lemma WaitsForSemaphore(s: State, t: nat)
    requires At(s, t) != Idle && !Enabled(s, Go(t))
    ensures match At(s, t)
      case Queued(c) => (if c == Get then s.cons else s.prod).tokens == 0
      case Enter(_) => s.mtx == 0
      case Woken(_) => s.mtx == 0
      case Undo(_) => s.mtx == 0
      case _ => false
  {
  }

  ghost predicate Stuck(s: State) {
    forall t :: At(s, t) != Idle ==> !Enabled(s, Go(t))
  }

  /** When nobody in a call can go on, the mutex is free and all of them sleep on queues without tokens. */
  lemma StuckAsleep(s: State, t: nat)
    requires Inv(s) && Stuck(s) && At(s, t) != Idle
    ensures s.mtx == 1 && At(s, t).Queued? && Q(s, SideOf(At(s, t).c)).tokens == 0
  {
    WaitsForSemaphore(s, t);
    forall u | u in s.threads
      ensures !Is(Inside, s.threads[u])
    {
      assert At(s, u) == s.threads[u];
      if s.threads[u] != Idle {
        WaitsForSemaphore(s, u);
      }
    }
    assert Those(s.threads, Inside) == {};
  }

  /** Without interruptions, a thread stuck on its queue has its reason there: a full ring, or an empty one. */
  lemma StuckReason(tr: seq<State>, i: nat, t: nat)
    requires CalmRun(tr) && i < |tr| && Stuck(tr[i]) && At(tr[i], t) != Idle
    ensures At(tr[i], t).Queued? && |tr[i].d.ring| == if At(tr[i], t).c == Get then 0 else 5
  {
    var s := tr[i];
    CountsNotNegative(tr, i);
    StuckAsleep(s, t);
    var q := SideOf(At(s, t).c);
    assert t in Those(s.threads, OnQueue(q));
    forall u | u in s.threads
      ensures !Is(Woke(q), s.threads[u])
    {
      assert At(s, u) == s.threads[u];
      if s.threads[u] != Idle {
        StuckAsleep(s, u);
      }
    }
    assert Those(s.threads, Woke(q)) == {};
    NoLostWakeup(tr, i, q);
  }

  /**
    Without interruptions, when nobody in a call can go on, all of them sleep before a full ring with their items, or
    all sleep before an empty one. So producers and consumers are never stuck together.
   */
  lemma NeverStuck(tr: seq<State>, i: nat)
    requires CalmRun(tr) && i < |tr| && forall t :: At(tr[i], t) != Idle ==> !Enabled(tr[i], Go(t))
    ensures var s := tr[i];
      || (forall t :: At(s, t) == Idle)
      || (|s.d.ring| == 5 && forall t :: At(s, t) == Idle || (At(s, t).Queued? && At(s, t).c.Put?))
      || (|s.d.ring| == 0 && forall t :: At(s, t) == Idle || At(s, t) == Queued(Get))
  {
    var s := tr[i];
    forall t | At(s, t) != Idle
      ensures At(s, t).Queued? && |s.d.ring| == if At(s, t).c == Get then 0 else 5
    {
      StuckReason(tr, i, t);
    }
  }

  // ----- a wake-up lost to an interruption

  ghost predicate Reachable(s: State) {
    exists tr :: Run(tr) && tr[|tr| - 1] == s
  }

  /** What a step changes. */
  ghost predicate Moved(s: State, a: Action, s': State) {
    var p := PlanOf(s, a);
    && (s'.mtx, s'.prod.tokens, s'.prod.waiting, s'.cons.tokens, s'.cons.waiting, s'.d)
         == (s.mtx + MutexChange(p.op), s.prod.tokens + TokenChange(p.op, Producer), s.prod.waiting + WaitingChange(p.op, Producer),
             s.cons.tokens + TokenChange(p.op, Consumer), s.cons.waiting + WaitingChange(p.op, Consumer), p.d)
    && (forall t :: At(s', t) == if t == a.t then p.pc else At(s, t))
  }

  lemma NextReachable(s: State, s': State)
    requires Reachable(s) && Next(s, s')
    ensures Reachable(s')
  {
    var tr :| Run(tr) && tr[|tr| - 1] == s;
    var tr' := tr + [s'];
    forall i | 0 <= i < |tr'| - 1
      ensures Next(tr'[i], tr'[i + 1])
    {
      assert i < |tr| - 1 ==> Next(tr[i], tr[i + 1]);
    }
    assert Run(tr');
  }

  lemma Step(s: State, a: Action) returns (s': State)
    requires Reachable(s) && Enabled(s, a)
    ensures Reachable(s') && Moved(s, a, s')
  {
    s' := Apply(s, a);
    assert Next(s, s');
    NextReachable(s, s');
  }

  /** What the three threads of the run below can see, and where they are; nobody else has begun. */
  datatype View = View(mtx: nat, prod: Queue, cons: Queue, ring: seq<nat>, pc0: Pc, pc1: Pc, pc2: Pc, alone: bool)

  ghost function Look(s: State): View {
    View(s.mtx, s.prod, s.cons, s.d.ring, At(s, 0), At(s, 1), At(s, 2), forall t :: t > 2 ==> At(s, t) == Idle)
  }

  lemma OneAsleep() returns (s: State)
    ensures Reachable(s) && Look(s) == View(1, Queue(0, 0), Queue(0, 1), [], Queued(Get), Idle, Idle, true)
    ensures 7 !in s.d.place
  {
    assert Run([Init()]);
    s := Step(Init(), Begin(0, Get));
    s := Step(s, Go(0));
    s := Step(s, Go(0));
  }

  lemma TwoAsleep() returns (s: State)
    ensures Reachable(s) && Look(s) == View(1, Queue(0, 0), Queue(0, 2), [], Queued(Get), Queued(Get), Idle, true)
    ensures 7 !in s.d.place
  {
    s := OneAsleep();
    s := Step(s, Begin(1, Get));
    s := Step(s, Go(1));
    s := Step(s, Go(1));
  }

  lemma ItemInserted() returns (s: State)
    ensures Reachable(s)
    ensures Look(s) == View(0, Queue(0, 0), Queue(0, 2), [7], Queued(Get), Queued(Get), Signal(Put(7), None), true)
  {
    s := TwoAsleep();
    s := Step(s, Begin(2, Put(7)));
    assert Look(s) == View(1, Queue(0, 0), Queue(0, 2), [], Queued(Get), Queued(Get), Enter(Put(7)), true);
    s := Step(s, Go(2));
    assert Look(s) == View(0, Queue(0, 0), Queue(0, 2), [], Queued(Get), Queued(Get), Test(Put(7)), true);
    s := Step(s, Go(2));
  }

  lemma ItemSignalled() returns (s: State)
    ensures Reachable(s) && Look(s) == View(1, Queue(0, 0), Queue(1, 1), [7], Queued(Get), Queued(Get), Idle, true)
  {
    s := ItemInserted();
    s := Step(s, Go(2));
    s := Step(s, Go(2));
    s := Step(s, Go(2));
  }

  lemma NobodyOnTheWay(s: State)
    requires Look(s) == View(1, Queue(0, 0), Queue(0, 1), [7], Idle, Queued(Get), Idle, true)
    ensures !Enough(s, Consumer)
  {
    forall t | t in s.threads
      ensures !Is(Coming(Consumer), s.threads[t]) && !Is(Undiscounted(Consumer), s.threads[t])
    {
      assert At(s, t) == s.threads[t] && (t > 2 ==> At(s, t) == Idle);
    }
    assert Those(s.threads, Coming(Consumer)) == {} && Those(s.threads, Undiscounted(Consumer)) == {};
  }

  /**
    Two consumers sleep, one item comes and one of them is signalled and woken, and then interrupted at the mutex.
    The mutex is free, no token is left and nobody is on the way, and the other sleeps on beside the item.
   */
  lemma WakeupLost() returns (s: State)
    ensures Reachable(s) && Look(s) == View(1, Queue(0, 0), Queue(0, 1), [7], Idle, Queued(Get), Idle, true)
    ensures !Enough(s, Consumer)
  {
    s := ItemSignalled();
    s := Step(s, Go(0));
    s := Step(s, Interrupt(0));
    NobodyOnTheWay(s);
  }
}
