/**
  The first producer/consumer module: three counting semaphores around a ring of
  pointers, any number of threads, and a way back from every interruption.
 */
module ProdCons1 {
  import opened Counting
  import ByteRing

  const MAX_ITEMS: nat := 5

  datatype Pc =
    | Idle
    | Reserving(x: nat)                      // item allocated, at down(huecos)
    | Entering(x: nat)                       // past huecos, at down(mtx)
    | Inserting(x: nat)                      // inside
    | Inserted                               // inside, about to leave
    | Posting                                // at up(elementos)
    | GivingBack                             // interrupted at down(mtx): up(huecos), the item is forgotten
    | Claiming                               // at down(elementos)
    | EnteringC                              // past elementos, at down(mtx)
    | Removing                               // inside
    | Removed(item: Option<nat>)             // inside, about to leave
    | Freeing(item: Option<nat>)             // at up(huecos)
    | Printing(item: Option<nat>)            // prints the item and frees it
    | GivingBackC                            // interrupted at down(mtx): up(elementos)

  datatype Sem = Huecos | Elementos | Mtx
  datatype Op = Skip | Down(s: Sem) | Up(s: Sem)

  /** Where an item is: a thread's alone, in the ring, freed, or forgotten by an interrupted writer. */
  datatype Place = With(t: nat) | InRing | Freed | Lost

  datatype Data = Data(
    ring: seq<nat>,
    place: map<nat, Place>,
    inserted: seq<nat>,                      // history, in the order of insertion
    removed: seq<nat>,                       // history, in the order of removal
    freed: seq<nat>)                         // history of vfree

  datatype State = State(huecos: nat, elementos: nat, mtx: nat, d: Data, threads: map<nat, Pc>)

  datatype Action = Write(t: nat, x: nat) | Read(t: nat) | Go(t: nat) | Interrupt(t: nat)

  function Init(): State {
    State(MAX_ITEMS, 0, 1, Data([], map[], [], [], []), map[])
  }

  function At(s: State, t: nat): Pc {
    if t in s.threads then s.threads[t] else Idle
  }

  /** insert_cbuffer_t: a full ring loses its oldest item. */
  function Insert(ring: seq<nat>, x: nat): seq<nat> {
    ByteRing.Last(ring + [x], MAX_ITEMS)
  }

  /** head_cbuffer_t and remove_cbuffer_t: NULL and no change when the ring is empty. */
  function Take(ring: seq<nat>): (seq<nat>, Option<nat>) {
    if ring == [] then (ring, None) else (ring[1..], Some(ring[0]))
  }

  datatype Plan = Plan(op: Op, d: Data, pc: Pc)

  function Free(d: Data, x: nat): Data {
    d.(place := d.place[x := Freed], freed := d.freed + [x])
  }

  function GoPlan(d: Data, t: nat, pc: Pc): Plan {
    match pc
    case Idle => Plan(Skip, d, Idle)
    case Reserving(x) => Plan(Down(Huecos), d, Entering(x))
    case Entering(x) => Plan(Down(Mtx), d, Inserting(x))
    case Inserting(x) =>
      Plan(Skip, d.(ring := Insert(d.ring, x), place := d.place[x := InRing], inserted := d.inserted + [x]), Inserted)
    case Inserted => Plan(Up(Mtx), d, Posting)
    case Posting => Plan(Up(Elementos), d, Idle)
    case GivingBack => Plan(Up(Huecos), d, Idle)
    case Claiming => Plan(Down(Elementos), d, EnteringC)
    case EnteringC => Plan(Down(Mtx), d, Removing)
    case Removing =>
      var (ring, item) := Take(d.ring);
      Plan(Skip,
           if item.Some? then d.(ring := ring, place := d.place[item.value := With(t)], removed := d.removed + [item.value]) else d,
           Removed(item))
    case Removed(item) => Plan(Up(Mtx), d, Freeing(item))
    case Freeing(item) => Plan(Up(Huecos), d, Printing(item))
    case Printing(item) => Plan(Skip, if item.Some? then Free(d, item.value) else d, Idle)
    case GivingBackC => Plan(Up(Elementos), d, Idle)
  }

  function PlanOf(s: State, a: Action): Plan {
    match a
    case Write(t, x) => Plan(Skip, s.d.(place := s.d.place[x := With(t)]), Reserving(x))
    case Read(t) => Plan(Skip, s.d, Claiming)
    case Go(t) => GoPlan(s.d, t, At(s, t))
    case Interrupt(t) =>
      (match At(s, t)
       case Reserving(x) => Plan(Skip, Free(s.d, x), Idle)
       case Entering(x) => Plan(Skip, s.d.(place := s.d.place[x := Lost]), GivingBack)
       case EnteringC => Plan(Skip, s.d, GivingBackC)
       case _ => Plan(Skip, s.d, Idle))
  }

  predicate Enabled(s: State, a: Action) {
    && (match a
        case Write(t, x) => At(s, t).Idle? && x !in s.d.place
        case Read(t) => At(s, t).Idle?
        case Go(t) => !At(s, t).Idle?
        case Interrupt(t) =>
          At(s, t).Reserving? || At(s, t).Entering? || At(s, t).Claiming? || At(s, t).EnteringC?)
    && (match PlanOf(s, a).op
        case Down(Huecos) => s.huecos > 0
        case Down(Elementos) => s.elementos > 0
        case Down(Mtx) => s.mtx > 0
        case _ => true)
  }

  function Change(o: Op, sem: Sem): int {
    match o
    case Skip => 0
    case Down(x) => -Bit(x == sem)
    case Up(x) => Bit(x == sem)
  }

  function Apply(s: State, a: Action): State
    requires Enabled(s, a)
  {
    var p := PlanOf(s, a);
    State(s.huecos + Change(p.op, Huecos), s.elementos + Change(p.op, Elementos), s.mtx + Change(p.op, Mtx),
          p.d, s.threads[a.t := p.pc])
  }

  ghost predicate Next(s: State, s': State) {
    exists a :: Enabled(s, a) && s' == Apply(s, a)
  }

  ghost predicate Run(tr: seq<State>) {
    && |tr| > 0
    && tr[0] == Init()
    && forall i :: 0 <= i < |tr| - 1 ==> Next(tr[i], tr[i + 1])
  }

  // ----- counting

  datatype Kind = Reserved | Emptied | Claimed | Filled | Inside

  predicate Is(k: Kind, pc: Pc) {
    match k
    case Reserved => pc.Entering? || pc.Inserting? || pc.GivingBack?
    case Emptied => pc.Removed? || pc.Freeing?
    case Claimed => pc.EnteringC? || pc.Removing? || pc.GivingBackC?
    case Filled => pc.Inserted? || pc.Posting?
    case Inside => pc.Inserting? || pc.Inserted? || pc.Removing? || pc.Removed?
  }

  function Those(m: map<nat, Pc>, k: Kind): set<nat> {
    set t | t in m && Is(k, m[t])
  }

  function Count(m: map<nat, Pc>, k: Kind): nat { |Those(m, k)| }

  lemma CountPositive(s: State, t: nat, k: Kind)
    requires Is(k, At(s, t))
    ensures Count(s.threads, k) > 0
  {
    assert t in Those(s.threads, k);
  }

  // ----- the invariant

  /** Every slot is free, promised to a producer, filled, or emptied by a consumer that has not said so yet. */
  ghost predicate SlotsCounted(s: State) {
    s.huecos + Count(s.threads, Reserved) + |s.d.ring| + Count(s.threads, Emptied) == MAX_ITEMS
  }

  /** Every item in the ring is announced, promised to a consumer, or not announced yet. */
  ghost predicate ItemsCounted(s: State) {
    s.elementos + Count(s.threads, Claimed) + Count(s.threads, Filled) == |s.d.ring|
  }

  ghost predicate Exclusive(s: State) {
    s.mtx + Count(s.threads, Inside) == 1
  }

  ghost predicate InOrder(d: Data) {
    d.inserted == d.removed + d.ring
  }

  /** The item a thread has to itself. */
  function Own(pc: Pc): Option<nat> {
    match pc
    case Reserving(x) => Some(x)
    case Entering(x) => Some(x)
    case Inserting(x) => Some(x)
    case Removed(item) => item
    case Freeing(item) => item
    case Printing(item) => item
    case _ => None
  }

  /** The part of the places that does not look at threads. */
  ghost predicate DataOk(d: Data) {
    && (forall x :: x in d.ring ==> x in d.place && d.place[x] == InRing)
    && (forall x :: x in d.freed ==> x in d.place && d.place[x] == Freed)
    && Distinct(d.ring)
    && Distinct(d.freed)
  }

  ghost predicate PlacesOk(s: State) {
    && (forall t :: Own(At(s, t)).Some? ==> Own(At(s, t)).value in s.d.place && s.d.place[Own(At(s, t)).value] == With(t))
    && DataOk(s.d)
  }

  /** Item `x` is where its place says: with its one thread, in the ring, freed, or forgotten. */
  ghost predicate Located(s: State, x: nat)
    requires x in s.d.place
  {
    match s.d.place[x]
    case With(t) => Own(At(s, t)) == Some(x)
    case InRing => x in s.d.ring
    case Freed => x in s.d.freed
    case Lost => true
  }

  ghost predicate Inv(s: State) {
    && SlotsCounted(s) && ItemsCounted(s) && Exclusive(s) && InOrder(s.d) && PlacesOk(s)
    && forall x :: x in s.d.place ==> Located(s, x)
  }

  // ----- every step keeps it

  /** What a step does to the semaphores is what it does to the threads and the ring, given room and an item. */
  lemma Discipline(s: State, a: Action)
    requires Enabled(s, a)
    requires At(s, a.t).Inserting? ==> |s.d.ring| < MAX_ITEMS
    requires At(s, a.t).Removing? ==> |s.d.ring| > 0
    ensures var p, pc := PlanOf(s, a), At(s, a.t);
      && Change(p.op, Huecos) + Bit(Is(Reserved, p.pc)) - Bit(Is(Reserved, pc)) + |p.d.ring| - |s.d.ring|
           + Bit(Is(Emptied, p.pc)) - Bit(Is(Emptied, pc)) == 0
      && Change(p.op, Elementos) + Bit(Is(Claimed, p.pc)) - Bit(Is(Claimed, pc))
           + Bit(Is(Filled, p.pc)) - Bit(Is(Filled, pc)) == |p.d.ring| - |s.d.ring|
      && Change(p.op, Mtx) + Bit(Is(Inside, p.pc)) - Bit(Is(Inside, pc)) == 0
  {
  }

  /** Who inserts has room, who removes has an item. */
  lemma RoomAndItem(s: State, t: nat)
    requires SlotsCounted(s) && ItemsCounted(s)
    ensures At(s, t).Inserting? ==> |s.d.ring| < MAX_ITEMS
    ensures At(s, t).Removing? ==> |s.d.ring| > 0
  {
    if At(s, t).Inserting? {
      CountPositive(s, t, Reserved);
    } else if At(s, t).Removing? {
      CountPositive(s, t, Claimed);
    }
  }

  lemma KeepsSlots(s: State, a: Action)
    requires SlotsCounted(s) && ItemsCounted(s) && Enabled(s, a)
    ensures SlotsCounted(Apply(s, a))
  {
    RoomAndItem(s, a.t);
    Discipline(s, a);
    OneChange(Those(s.threads, Reserved), Those(Apply(s, a).threads, Reserved), a.t);
    OneChange(Those(s.threads, Emptied), Those(Apply(s, a).threads, Emptied), a.t);
  }

  lemma KeepsItems(s: State, a: Action)
    requires SlotsCounted(s) && ItemsCounted(s) && Enabled(s, a)
    ensures ItemsCounted(Apply(s, a))
  {
    RoomAndItem(s, a.t);
    Discipline(s, a);
    OneChange(Those(s.threads, Claimed), Those(Apply(s, a).threads, Claimed), a.t);
    OneChange(Those(s.threads, Filled), Those(Apply(s, a).threads, Filled), a.t);
  }

  lemma KeepsExclusive(s: State, a: Action)
    requires SlotsCounted(s) && ItemsCounted(s) && Exclusive(s) && Enabled(s, a)
    ensures Exclusive(Apply(s, a))
  {
    RoomAndItem(s, a.t);
    Discipline(s, a);
    OneChange(Those(s.threads, Inside), Those(Apply(s, a).threads, Inside), a.t);
  }

  lemma KeepsOrder(s: State, a: Action)
    requires SlotsCounted(s) && ItemsCounted(s) && InOrder(s.d) && Enabled(s, a)
    ensures InOrder(Apply(s, a).d)
  {
    RoomAndItem(s, a.t);
    var d := s.d;
    if a.Go? && At(s, a.t).Removing? {
      assert d.ring == [d.ring[0]] + d.ring[1..];
    }
  }

  lemma KeepsData(s: State, a: Action)
    requires DataOk(s.d) && Enabled(s, a)
    requires var x := Own(At(s, a.t)); x.Some? ==> x.value in s.d.place && s.d.place[x.value] == With(a.t)
    requires At(s, a.t).Inserting? ==> |s.d.ring| < MAX_ITEMS
    requires At(s, a.t).Removing? ==> |s.d.ring| > 0
    ensures DataOk(PlanOf(s, a).d)
  {
  }

  /** A step gives or takes only the item it moves. */
  lemma OwnFollows(s: State, a: Action)
    requires DataOk(s.d) && Enabled(s, a)
    requires At(s, a.t).Removing? ==> |s.d.ring| > 0
    requires var x := Own(At(s, a.t)); x.Some? ==> x.value in s.d.place && s.d.place[x.value] == With(a.t)
    ensures var p := PlanOf(s, a);
      && (Own(p.pc).Some? ==> Own(p.pc).value in p.d.place && p.d.place[Own(p.pc).value] == With(a.t))
      && forall x, u :: x in s.d.place && s.d.place[x] == With(u) && u != a.t ==> x in p.d.place && p.d.place[x] == With(u)
  {
  }

  lemma KeepsPlaces(s: State, a: Action)
    requires SlotsCounted(s) && ItemsCounted(s) && PlacesOk(s) && Enabled(s, a)
    ensures PlacesOk(Apply(s, a))
  {
    RoomAndItem(s, a.t);
    KeepsData(s, a);
    OwnFollows(s, a);
    var s' := Apply(s, a);
    forall t | Own(At(s', t)).Some?
      ensures Own(At(s', t)).value in s'.d.place && s'.d.place[Own(At(s', t)).value] == With(t)
    {
      assert At(s', t) == if t == a.t then PlanOf(s, a).pc else At(s, t);
    }
  }

  /** Item `x` is where its place says, as far as thread `t` at `pc` is concerned. */
  ghost predicate LocatedFor(d: Data, x: nat, t: nat, pc: Pc) {
    x in d.place &&
    match d.place[x]
    case With(u) => u == t ==> Own(pc) == Some(x)
    case InRing => x in d.ring
    case Freed => x in d.freed
    case Lost => true
  }

  lemma PlanLocates(s: State, a: Action, x: nat)
    requires Enabled(s, a) && x in PlanOf(s, a).d.place && (x in s.d.place ==> LocatedFor(s.d, x, a.t, At(s, a.t)))
    requires At(s, a.t).Inserting? ==> |s.d.ring| < MAX_ITEMS
    requires Own(At(s, a.t)).Some? ==> Own(At(s, a.t)).value in s.d.place
    requires At(s, a.t).Removing? && s.d.ring != [] ==> s.d.ring[0] in s.d.place
    ensures var p := PlanOf(s, a);
      && LocatedFor(p.d, x, a.t, p.pc)
      && (p.d.place[x].With? && p.d.place[x].t != a.t ==> x in s.d.place && s.d.place[x] == p.d.place[x])
  {
    if a.Go? && At(s, a.t).Removing? && s.d.ring != [] {
      assert s.d.ring == [s.d.ring[0]] + s.d.ring[1..];
    }
  }

  lemma KeepsLocated(s: State, a: Action, x: nat)
    requires SlotsCounted(s) && ItemsCounted(s) && PlacesOk(s) && Enabled(s, a)
    requires x in PlanOf(s, a).d.place && (x in s.d.place ==> Located(s, x))
    ensures Located(Apply(s, a), x)
  {
    RoomAndItem(s, a.t);
    PlanLocates(s, a, x);
    assert forall t :: At(Apply(s, a), t) == if t == a.t then PlanOf(s, a).pc else At(s, t);
  }

  lemma InvStep(s: State, a: Action)
    requires Inv(s) && Enabled(s, a)
    ensures Inv(Apply(s, a))
  {
    KeepsSlots(s, a);
    KeepsItems(s, a);
    KeepsExclusive(s, a);
    KeepsOrder(s, a);
    KeepsPlaces(s, a);
    forall x | x in PlanOf(s, a).d.place
      ensures Located(Apply(s, a), x)
    {
      KeepsLocated(s, a, x);
    }
  }

  lemma InvInit()
    ensures Inv(Init())
  {
  }

  lemma InvNext(s: State, s': State)
    requires Inv(s) && Next(s, s')
    ensures Inv(s')
  {
    var a :| Enabled(s, a) && s' == Apply(s, a);
    InvStep(s, a);
  }

  lemma {:induction false} InvRun(tr: seq<State>, i: nat)
    requires Run(tr) && i < |tr|
    ensures Inv(tr[i])
  {
    if i == 0 {
      InvInit();
    } else {
      InvRun(tr, i - 1);
      assert Next(tr[i - 1], tr[i - 1 + 1]);
      InvNext(tr[i - 1], tr[i]);
    }
  }

  // ----- the ring underneath

  /** The C ring of five pointers does what the ring of the transition system does. */
  lemma RingRefines(r: ByteRing.Ring<nat>, x: nat, null_: nat)
    requires r.Ok() && r.head < |r.data| == MAX_ITEMS
    ensures ByteRing.Contents(ByteRing.InsertOne(r, x)) == Insert(ByteRing.Contents(r), x)
    ensures var (ring, item) := Take(ByteRing.Contents(r));
      && ByteRing.Contents(ByteRing.RemoveOne(r, null_).0) == ring
      && ByteRing.RemoveOne(r, null_).1 == (if item.Some? then item.value else null_)
  {
    assert ByteRing.InsertEach(r, []) == r && [x][..0] == [];
    assert ByteRing.InsertEach(r, [x]) == ByteRing.InsertOne(r, x);
    ByteRing.InsertManyIsEach(r, [x]);
    ByteRing.InsertManyAppends(r, [x]);
    if r.size > 0 {
      assert ByteRing.RemoveEach(r, 0, null_) == (r, []);
      ByteRing.RemoveManyIsEach(r, 1, null_);
      ByteRing.RemoveManyDrops(r, 1);
      assert ByteRing.RemoveEach(r, 1, null_).1 == [ByteRing.RemoveOne(r, null_).1];
    }
  }

  // ----- the theorems

  /** Interruptions included: the two conservation laws, and one thread inside at most. */
  lemma Conserved(tr: seq<State>, i: nat)
    requires Run(tr) && i < |tr|
    ensures var s := tr[i];
      && s.huecos + Count(s.threads, Reserved) + |s.d.ring| + Count(s.threads, Emptied) == MAX_ITEMS
      && s.elementos + Count(s.threads, Claimed) + Count(s.threads, Filled) == |s.d.ring|
      && s.mtx + Count(s.threads, Inside) == 1
  {
    InvRun(tr, i);
  }

  /** Nobody inserts into a full ring or removes from an empty one. */
  lemma NeverFullNeverEmpty(tr: seq<State>, i: nat, t: nat)
    requires Run(tr) && i < |tr|
    ensures At(tr[i], t).Inserting? ==> |tr[i].d.ring| < MAX_ITEMS
    ensures At(tr[i], t).Removing? ==> |tr[i].d.ring| > 0
  {
    InvRun(tr, i);
    RoomAndItem(tr[i], t);
  }

  /** Items leave in the order they came, and none is freed twice or while it is still in the ring. */
  lemma ItemsInOrderFreedOnce(tr: seq<State>, i: nat)
    requires Run(tr) && i < |tr|
    ensures tr[i].d.inserted == tr[i].d.removed + tr[i].d.ring
    ensures forall j, k :: 0 <= j < k < |tr[i].d.freed| ==> tr[i].d.freed[j] != tr[i].d.freed[k]
    ensures forall x :: x in tr[i].d.ring ==> x !in tr[i].d.freed
  {
    InvRun(tr, i);
  }

  /** Every item ever allocated is in one thread's hands, in the ring, freed, or forgotten. */
  lemma EveryItemAccountedFor(tr: seq<State>, i: nat, x: nat)
    requires Run(tr) && i < |tr| && x in tr[i].d.place
    ensures var s := tr[i];
      && ((exists t :: Own(At(s, t)) == Some(x)) || x in s.d.ring || x in s.d.freed || s.d.place[x] == Lost)
      && (forall t, u :: Own(At(s, t)) == Some(x) && Own(At(s, u)) == Some(x) ==> t == u)
      && (s.d.place[x] == Lost ==> x !in s.d.ring && x !in s.d.freed && forall t :: Own(At(s, t)) != Some(x))
  {
    InvRun(tr, i);
    assert Located(tr[i], x);
  }

  /** An item is forgotten exactly when its writer is interrupted at the mutex, and then for good. */
  lemma LostExactly(s: State, a: Action, x: nat)
    requires Inv(s) && Enabled(s, a)
    ensures x in Apply(s, a).d.place && Apply(s, a).d.place[x] == Lost
      <==> (x in s.d.place && s.d.place[x] == Lost) || (a.Interrupt? && At(s, a.t) == Entering(x))
  {
    RoomAndItem(s, a.t);
    assert Own(At(s, a.t)).Some? ==> s.d.place[Own(At(s, a.t)).value] == With(a.t);
  }

  /** A writer takes a slot, is interrupted at the mutex and gives the slot back: nobody will free its item. */
  lemma ItemLost(x: nat) returns (tr: seq<State>)
    ensures Run(tr)
    ensures var s := tr[|tr| - 1]; s.huecos == MAX_ITEMS && At(s, 0) == Idle && s.d.place == map[x := Lost]
  {
    var s1 := Apply(Init(), Write(0, x));
    var s2 := Apply(s1, Go(0));
    var s3 := Apply(s2, Interrupt(0));
    var s4 := Apply(s3, Go(0));
    tr := [Init(), s1, s2, s3, s4];
    assert Next(Init(), s1) && Next(s1, s2) && Next(s2, s3) && Next(s3, s4);
  }

  // ----- who can go on

  /** A write begins with its item in hand, at the free slots; a read at the filled ones. */
  lemma CallsBegin(s: State, t: nat, x: nat)
    ensures Enabled(s, Write(t, x)) <==> At(s, t) == Idle && x !in s.d.place
    ensures Enabled(s, Read(t)) <==> At(s, t) == Idle
    ensures Enabled(s, Write(t, x)) ==>
      At(Apply(s, Write(t, x)), t) == Reserving(x) && Apply(s, Write(t, x)).d.place == s.d.place[x := With(t)]
    ensures Enabled(s, Read(t)) ==> At(Apply(s, Read(t)), t) == Claiming
  {
  }

  /** A thread that cannot go on waits for a slot, for an item or for the mutex. */
  lemma WaitsForSemaphore(s: State, t: nat)
    requires At(s, t) != Idle && !Enabled(s, Go(t))
    ensures match At(s, t)
      case Reserving(_) => s.huecos == 0
      case Claiming => s.elementos == 0
      case Entering(_) => s.mtx == 0
      case EnteringC => s.mtx == 0
      case _ => false
  {
  }

  lemma {:induction false} SomeoneInside(s: State) returns (t: nat)
    requires Count(s.threads, Inside) > 0
    ensures t in s.threads && Is(Inside, At(s, t))
  {
    t :| t in Those(s.threads, Inside);
  }

  /**
    When nobody in a call can go on, the ring is full and all of them wait for a free slot, or it is empty and all wait
    for an item. So producers and consumers are never stuck together.
   */
  lemma NeverStuck(tr: seq<State>, i: nat)
    requires Run(tr) && i < |tr| && forall t :: At(tr[i], t) != Idle ==> !Enabled(tr[i], Go(t))
    ensures var s := tr[i];
      || (forall t :: At(s, t) == Idle)
      || (|s.d.ring| == 5 && forall t :: At(s, t) == Idle || At(s, t).Reserving?)
      || (|s.d.ring| == 0 && forall t :: At(s, t) == Idle || At(s, t) == Claiming)
  {
    var s := tr[i];
    InvRun(tr, i);
    forall t | At(s, t) != Idle
      ensures (At(s, t).Reserving? && s.huecos == 0) || (At(s, t) == Claiming && s.elementos == 0)
    {
      WaitsForSemaphore(s, t);
      if s.mtx == 0 {
        var u := SomeoneInside(s);
        WaitsForSemaphore(s, u);
      }
    }
    forall k: Kind
      ensures Count(s.threads, k) == 0
    {
      forall t | t in s.threads
        ensures !Is(k, s.threads[t])
      {
        assert At(s, t) == s.threads[t];
      }
      assert Those(s.threads, k) == {};
    }
    assert s.huecos + |s.d.ring| == 5 && s.elementos == |s.d.ring|;
  }
}
