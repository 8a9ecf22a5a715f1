/**
  The list of integers behind /proc/modlist: any number of threads add, remove,
  clear and read under a read/write lock. Removed nodes go to a bin of their
  thread and are freed after the lock is given back.
 */
module Modlist {
  import opened Counting

  /** A sweep removes the nodes of one value, or all. */
  datatype Pc =
    | Idle
    | AddWait(x: nat)                        // node allocated, at write_lock
    | AddIn(x: nat)
    | AddOut                                 // linked, at write_unlock
    | SweepWait(v: Option<int>)              // at write_lock
    | SweepIn(v: Option<int>, before: seq<nat>, k: nat, bin: seq<nat>)   // k nodes looked at and kept
    | SweepOut(v: Option<int>, before: seq<nat>, bin: seq<nat>)          // at write_unlock; before: the list at write_lock
    | Purge(bin: seq<nat>)                   // freeing, without the lock
    | ReadWait                               // at read_lock
    | ReadIn(k: nat, out: seq<int>)          // k nodes printed
    | ReadOut(out: seq<int>, full: bool)     // at read_unlock; full: stopped for want of room

  datatype Place = With(t: nat) | Shared | Freed

  datatype Update = Added(x: nat) | Swept(v: Option<int>)

  datatype Data = Data(
    list: seq<nat>,                          // the nodes of mylist, first to last
    value: map<nat, int>,                    // of every node ever allocated
    place: map<nat, Place>,
    log: seq<Update>,                        // history of updates, in the order of the lock
    freed: seq<nat>)                         // history of vfree

  datatype State = State(writer: Option<nat>, readers: set<nat>, d: Data, threads: map<nat, Pc>)

  datatype Action =
    | Add(t: nat, x: nat, data: int)
    | Sweep(t: nat, v: Option<int>)
    | Read(t: nat)
    | Go(t: nat)
    | Full(t: nat)                           // the reader's buffer is used up

  datatype Op = Skip | WriteLock | WriteUnlock | ReadLock | ReadUnlock

  function Init(): State {
    State(None, {}, Data([], map[], map[], [], []), map[])
  }

  function At(s: State, t: nat): Pc {
    if t in s.threads then s.threads[t] else Idle
  }

  predicate Hit(value: map<nat, int>, v: Option<int>, x: nat) {
    v.None? || (x in value && value[x] == v.value)
  }

  // ----- the program

  datatype Plan = Plan(op: Op, d: Data, pc: Pc)

  /** The body of list_for_each_entry_safe: a node that is hit moves to the bin. */
  function SweepPlan(d: Data, t: nat, v: Option<int>, before: seq<nat>, k: nat, bin: seq<nat>): Plan {
    if k >= |d.list| then Plan(Skip, d.(log := d.log + [Swept(v)]), SweepOut(v, before, bin))
    else if Hit(d.value, v, d.list[k]) then
      Plan(Skip, d.(list := d.list[..k] + d.list[k + 1..], place := d.place[d.list[k] := With(t)]), SweepIn(v, before, k, [d.list[k]] + bin))
    else Plan(Skip, d, SweepIn(v, before, k + 1, bin))
  }

  function ReadPlan(d: Data, k: nat, out: seq<int>): Plan {
    if k >= |d.list| || d.list[k] !in d.value then Plan(Skip, d, ReadOut(out, false))
    else Plan(Skip, d, ReadIn(k + 1, out + [d.value[d.list[k]]]))
  }

  function GoPlan(d: Data, t: nat, pc: Pc): Plan {
    match pc
    case Idle => Plan(Skip, d, Idle)
    case AddWait(x) => Plan(WriteLock, d, AddIn(x))
    case AddIn(x) => Plan(Skip, d.(list := [x] + d.list, place := d.place[x := Shared], log := d.log + [Added(x)]), AddOut)
    case AddOut => Plan(WriteUnlock, d, Idle)
    case SweepWait(v) => Plan(WriteLock, d, SweepIn(v, d.list, 0, []))
    case SweepIn(v, before, k, bin) => SweepPlan(d, t, v, before, k, bin)
    case SweepOut(_, _, bin) => Plan(WriteUnlock, d, Purge(bin))
    case Purge(bin) =>
      if bin == [] then Plan(Skip, d, Idle)
      else Plan(Skip, d.(place := d.place[bin[0] := Freed], freed := d.freed + [bin[0]]), Purge(bin[1..]))
    case ReadWait => Plan(ReadLock, d, ReadIn(0, []))
    case ReadIn(k, out) => ReadPlan(d, k, out)
    case ReadOut(_, _) => Plan(ReadUnlock, d, Idle)
  }

  function PlanOf(s: State, a: Action): Plan {
    match a
    case Add(t, x, v) => Plan(Skip, s.d.(value := s.d.value[x := v], place := s.d.place[x := With(t)]), AddWait(x))
    case Sweep(t, v) => Plan(Skip, s.d, SweepWait(v))
    case Read(t) => Plan(Skip, s.d, ReadWait)
    case Go(t) => GoPlan(s.d, t, At(s, t))
    case Full(t) => Plan(Skip, s.d, if At(s, t).ReadIn? then ReadOut(At(s, t).out, true) else Idle)
  }

  predicate Enabled(s: State, a: Action) {
    && (match a
        case Add(t, x, _) => At(s, t).Idle? && x !in s.d.place && x !in s.d.value
        case Sweep(t, _) => At(s, t).Idle?
        case Read(t) => At(s, t).Idle?
        case Go(t) => !At(s, t).Idle?
        case Full(t) => At(s, t).ReadIn?)
    && (match PlanOf(s, a).op
        case WriteLock => s.writer == None && s.readers == {}
        case ReadLock => s.writer == None
        case _ => true)
  }

  function Apply(s: State, a: Action): State
    requires Enabled(s, a)
  {
    var p := PlanOf(s, a);
    State(match p.op { case WriteLock => Some(a.t) case WriteUnlock => None case _ => s.writer },
          match p.op { case ReadLock => s.readers + {a.t} case ReadUnlock => s.readers - {a.t} case _ => s.readers },
          p.d, s.threads[a.t := p.pc])
  }

  ghost predicate Next(s: State, s': State) {
    exists a :: Enabled(s, a) && s' == Apply(s, a)
  }

  ghost predicate Run(tr: seq<State>) {
    && |tr| > 0
    && tr[0] == Init()
    && forall i :: 0 <= i < |tr| - 1 ==> Next(tr[i], tr[i + 1])
  }

  // ----- replay

  /** The nodes a sweep keeps. */
  function Kept(value: map<nat, int>, v: Option<int>, xs: seq<nat>): seq<nat> {
    if xs == [] then []
    else (if Hit(value, v, xs[0]) then [] else [xs[0]]) + Kept(value, v, xs[1..])
  }

  /** The list after the updates, one at a time: push in front, or filter. */
  function Replay(value: map<nat, int>, log: seq<Update>): seq<nat> {
    if log == [] then []
    else
      var before := Replay(value, log[..|log| - 1]);
      var u := log[|log| - 1];
      if u.Added? then [u.x] + before else Kept(value, u.v, before)
  }

  // ----- the invariant

  predicate Writing(pc: Pc) { pc.AddIn? || pc.AddOut? || pc.SweepIn? || pc.SweepOut? }
  predicate Reading(pc: Pc) { pc.ReadIn? || pc.ReadOut? }

  ghost predicate LockOk(s: State) {
    && (forall t: nat :: Writing(At(s, t)) <==> s.writer == Some(t))
    && (forall t: nat :: Reading(At(s, t)) <==> t in s.readers)
    && (s.writer.Some? ==> s.readers == {})
  }

  /** The nodes a thread has to itself. */
  function Own(pc: Pc): seq<nat> {
    match pc
    case AddWait(x) => [x]
    case AddIn(x) => [x]
    case SweepIn(_, _, _, bin) => bin
    case SweepOut(_, _, bin) => bin
    case Purge(bin) => bin
    case _ => []
  }

  ghost predicate DataOk(d: Data) {
    && d.place.Keys == d.value.Keys
    && (forall x :: x in d.list ==> x in d.place && d.place[x] == Shared)
    && (forall x :: x in d.freed ==> x in d.place && d.place[x] == Freed)
    && Distinct(d.list)
    && Distinct(d.freed)
  }

  ghost predicate OwnOk(d: Data, t: nat, pc: Pc) {
    Distinct(Own(pc)) && forall x :: x in Own(pc) ==> x in d.place && d.place[x] == With(t)
  }

  /** No node gets lost: it is on the list, freed, or in the hands of the thread it is with. */
  ghost predicate Located(s: State, x: nat)
    requires x in s.d.place
  {
    match s.d.place[x]
    case With(t) => x in Own(At(s, t))
    case Shared => x in s.d.list
    case Freed => x in s.d.freed
  }

  /** What a reader has printed are the values of the first nodes of the list. */
  ghost predicate Printed(value: map<nat, int>, list: seq<nat>, out: seq<int>) {
    |out| <= |list| && forall i :: 0 <= i < |out| ==> list[i] in value && out[i] == value[list[i]]
  }

  // ----- what a sweep is to do, by the values of the nodes

  /** The nodes that stay: none, or those with another value, in order. */
  function Staying(value: map<nat, int>, v: Option<int>, xs: seq<nat>): seq<nat> {
    if xs == [] || v == None then []
    else
      var x := xs[|xs| - 1];
      Staying(value, v, xs[..|xs| - 1]) + if x in value && value[x] == v.value then [] else [x]
  }

  /** The nodes that go, each in front of those before it: all, or those with the value. */
  function Going(value: map<nat, int>, v: Option<int>, xs: seq<nat>): seq<nat> {
    if xs == [] then []
    else
      var x := xs[|xs| - 1];
      (if v == None || (x in value && value[x] == v.value) then [x] else []) + Going(value, v, xs[..|xs| - 1])
  }

  /** All that is left of the list is what is to stay, and the bin holds what was to go. */
  ghost predicate Divided(value: map<nat, int>, list: seq<nat>, v: Option<int>, before: seq<nat>, bin: seq<nat>) {
    && list == Staying(value, v, before) && bin == Going(value, v, before)
    && forall x :: x in before ==> x in value
  }

  /** So it is up to the `k`-th node. */
  ghost predicate Halfway(value: map<nat, int>, list: seq<nat>, v: Option<int>, before: seq<nat>, k: nat, bin: seq<nat>) {
    && k <= |list| <= |before| + k
    && before[Passed(list, before, k)..] == list[k..]
    && Divided(value, list[..k], v, before[..Passed(list, before, k)], bin)
    && forall x :: x in before ==> x in value
  }

  /** How many nodes have been looked at, when `k` of them have stayed. */
  function Passed(list: seq<nat>, before: seq<nat>, k: nat): (m: nat)
    requires k <= |list| <= |before| + k
    ensures m <= |before|
  {
    |before| + k - |list|
  }

  lemma {:induction false} DividedFrame(value: map<nat, int>, x: nat, n: int, v: Option<int>, xs: seq<nat>)
    requires x !in xs
    ensures Staying(value[x := n], v, xs) == Staying(value, v, xs) && Going(value[x := n], v, xs) == Going(value, v, xs)
  {
    if xs != [] {
      DividedFrame(value, x, n, v, xs[..|xs| - 1]);
    }
  }

  /** One node more, that goes. */
  lemma OneGoes(value: map<nat, int>, list: seq<nat>, v: Option<int>, before: seq<nat>, k: nat, bin: seq<nat>, x: nat)
    requires Halfway(value, list, v, before, k, bin) && k < |list| && x == list[k] && Hit(value, v, x)
    ensures Halfway(value, list[..k] + list[k + 1..], v, before, k, [x] + bin)
  {
    NextPassed(list, before, k);
    var m, rest := Passed(list, before, k), list[..k] + list[k + 1..];
    assert rest[..k] == list[..k] && rest[k..] == list[k + 1..];
    assert before[..m + 1][..m] == before[..m];
  }

  /** One node more, that stays. */
  lemma OneStays(value: map<nat, int>, list: seq<nat>, v: Option<int>, before: seq<nat>, k: nat, bin: seq<nat>, x: nat)
    requires Halfway(value, list, v, before, k, bin) && k < |list| && x == list[k] && !Hit(value, v, x)
    ensures Halfway(value, list, v, before, k + 1, bin)
  {
    NextPassed(list, before, k);
    var m := Passed(list, before, k);
    assert list[..k + 1] == list[..k] + [x];
    assert before[..m + 1][..m] == before[..m];
  }

  lemma NextPassed(list: seq<nat>, before: seq<nat>, k: nat)
    requires k < |list| <= |before| + k && before[Passed(list, before, k)..] == list[k..]
    ensures var m := Passed(list, before, k); m < |before| && before[m] == list[k] && before[m + 1..] == list[k + 1..]
  {
    var m := Passed(list, before, k);
    assert before[m] == before[m..][0] && list[k] == list[k..][0];
    assert before[m + 1..] == before[m..][1..] && list[k + 1..] == list[k..][1..];
  }

  lemma HalfwayDone(value: map<nat, int>, list: seq<nat>, v: Option<int>, before: seq<nat>, k: nat, bin: seq<nat>)
    requires Halfway(value, list, v, before, k, bin) && k >= |list|
    ensures Divided(value, list, v, before, bin)
  {
    assert before[..|before|] == before && list[..k] == list;
  }

  /** The list is the replay of the log; in the middle of a sweep, it is on the way to the next one. */
  ghost predicate ThreadOk(d: Data, pc: Pc) {
    match pc
    case SweepIn(v, before, k, bin) =>
      Replaying(d, v, k) && Halfway(d.value, d.list, v, before, k, bin)
    case SweepOut(v, before, bin) => Divided(d.value, d.list, v, before, bin)
    case ReadIn(k, out) => |out| == k && Printed(d.value, d.list, out)
    case ReadOut(out, full) => Printed(d.value, d.list, out) && (!full ==> |out| == |d.list|)
    case _ => true
  }

  ghost predicate Sweeping(s: State) { exists t :: At(s, t).SweepIn? }

  ghost predicate Inv(s: State) {
    && LockOk(s)
    && DataOk(s.d)
    && (forall t :: OwnOk(s.d, t, At(s, t)) && ThreadOk(s.d, At(s, t)))
    && (Sweeping(s) || s.d.list == Replay(s.d.value, s.d.log))
    && (forall x :: Added(x) in s.d.log ==> x in s.d.value)
    && (forall x :: x in s.d.place ==> Located(s, x))
  }

  // ----- every step keeps it

  lemma KeepsLock(s: State, a: Action)
    requires LockOk(s) && Enabled(s, a)
    ensures LockOk(Apply(s, a))
  {
    assert forall t :: At(Apply(s, a), t) == if t == a.t then PlanOf(s, a).pc else At(s, t);
    assert Writing(At(s, a.t)) <==> s.writer == Some(a.t);
    assert Reading(At(s, a.t)) <==> a.t in s.readers;
  }

  lemma DropDistinct(xs: seq<nat>, k: nat)
    requires Distinct(xs) && k < |xs|
    ensures Distinct(xs[..k] + xs[k + 1..]) && xs[k] !in xs[..k] + xs[k + 1..]
    ensures forall x :: x in xs[..k] + xs[k + 1..] ==> x in xs
  {
    var ys := xs[..k] + xs[k + 1..];
    assert forall i :: 0 <= i < |ys| ==> ys[i] == xs[if i < k then i else i + 1];
  }

  lemma SweepKeepsData(d: Data, t: nat, v: Option<int>, before: seq<nat>, k: nat, bin: seq<nat>)
    requires DataOk(d) && OwnOk(d, t, SweepIn(v, before, k, bin))
    ensures var p := SweepPlan(d, t, v, before, k, bin); DataOk(p.d) && OwnOk(p.d, t, p.pc)
  {
    if k < |d.list| {
      DropDistinct(d.list, k);
      var x := d.list[k];
      assert x in d.list && x !in bin;
      assert forall y :: y in [x] + bin ==> y == x || y in bin;
    }
  }

  lemma RestDistinct(xs: seq<nat>)
    requires Distinct(xs) && xs != []
    ensures Distinct(xs[1..]) && xs[0] !in xs[1..] && forall y :: y in xs[1..] ==> y in xs
  {
    var ys := xs[1..];
    assert forall i :: 0 <= i < |ys| ==> ys[i] == xs[i + 1];
  }

  lemma PurgeKeepsData(d: Data, t: nat, bin: seq<nat>)
    requires DataOk(d) && OwnOk(d, t, Purge(bin))
    ensures var p := GoPlan(d, t, Purge(bin)); DataOk(p.d) && OwnOk(p.d, t, p.pc)
  {
    if bin != [] {
      RestDistinct(bin);
      assert bin[0] in Own(Purge(bin));
    }
  }

  lemma KeepsData(s: State, a: Action)
    requires DataOk(s.d) && OwnOk(s.d, a.t, At(s, a.t)) && Enabled(s, a)
    ensures DataOk(PlanOf(s, a).d) && OwnOk(PlanOf(s, a).d, a.t, PlanOf(s, a).pc)
  {
    var pc := At(s, a.t);
    if a.Go? && pc.SweepIn? {
      SweepKeepsData(s.d, a.t, pc.v, pc.before, pc.k, pc.bin);
    } else if a.Go? && pc.Purge? {
      PurgeKeepsData(s.d, a.t, pc.bin);
    } else if a.Go? && pc.AddIn? {
      assert pc.x in Own(pc);
    }
  }

  /** A step leaves other threads' nodes alone. */
  lemma OthersKeepTheirs(s: State, a: Action, u: nat)
    requires DataOk(s.d) && OwnOk(s.d, a.t, At(s, a.t)) && OwnOk(s.d, u, At(s, u)) && Enabled(s, a) && u != a.t
    ensures OwnOk(PlanOf(s, a).d, u, At(s, u))
  {
    if a.Go? {
      match At(s, a.t)
      case SweepIn(v, _, k, bin) => assert k < |s.d.list| ==> s.d.list[k] in s.d.list;
      case Purge(bin) => assert bin != [] ==> bin[0] in bin;
      case AddIn(x) => assert x in Own(At(s, a.t));
      case _ =>
    }
  }

  lemma StillInRest(xs: seq<nat>, k: nat, x: nat)
    requires k < |xs| && x in xs && x != xs[k]
    ensures x in xs[..k] + xs[k + 1..]
  {
    var i :| 0 <= i < |xs| && xs[i] == x;
    assert (xs[..k] + xs[k + 1..])[if i < k then i else i - 1] == x;
  }

  /** Node `x` is where its place says, as far as thread `t` at `pc` is concerned. */
  ghost predicate LocatedFor(d: Data, x: nat, t: nat, pc: Pc) {
    x in d.place &&
    match d.place[x]
    case With(u) => u == t ==> x in Own(pc)
    case Shared => x in d.list
    case Freed => x in d.freed
  }

  /** A step of `t` from `pc` to `p` puts `x` where its place says, and gives nothing to other threads. */
  ghost predicate Moves(d: Data, x: nat, t: nat, p: Plan) {
    && LocatedFor(p.d, x, t, p.pc)
    && (p.d.place[x].With? && p.d.place[x].t != t ==> x in d.place && d.place[x] == p.d.place[x])
  }

  lemma SweepMoves(d: Data, t: nat, v: Option<int>, before: seq<nat>, k: nat, bin: seq<nat>, x: nat)
    requires LocatedFor(d, x, t, SweepIn(v, before, k, bin))
    ensures Moves(d, x, t, SweepPlan(d, t, v, before, k, bin))
  {
    if k < |d.list| && x in d.list && x != d.list[k] {
      StillInRest(d.list, k, x);
    }
  }

  lemma PurgeMoves(d: Data, t: nat, bin: seq<nat>, x: nat)
    requires LocatedFor(d, x, t, Purge(bin)) && (bin != [] ==> bin[0] !in d.list)
    ensures Moves(d, x, t, GoPlan(d, t, Purge(bin)))
  {
    if bin != [] {
      assert bin == [bin[0]] + bin[1..];
    }
  }

  lemma OthersMove(s: State, a: Action, x: nat)
    requires Enabled(s, a) && !(a.Go? && (At(s, a.t).SweepIn? || At(s, a.t).Purge?))
    requires (a.Add? && a.x == x) || LocatedFor(s.d, x, a.t, At(s, a.t))
    ensures Moves(s.d, x, a.t, PlanOf(s, a))
  {
  }

  lemma KeepsLocated(s: State, a: Action, x: nat)
    requires DataOk(s.d) && OwnOk(s.d, a.t, At(s, a.t)) && Enabled(s, a)
    requires x in PlanOf(s, a).d.place && (x in s.d.place ==> Located(s, x))
    ensures Located(Apply(s, a), x)
  {
    var s', pc := Apply(s, a), At(s, a.t);
    NewNodes(s, a, x);
    if a.Go? && pc.SweepIn? {
      SweepMoves(s.d, a.t, pc.v, pc.before, pc.k, pc.bin, x);
    } else if a.Go? && pc.Purge? {
      assert pc.bin != [] ==> pc.bin[0] in Own(pc);
      PurgeMoves(s.d, a.t, pc.bin, x);
    } else {
      OthersMove(s, a, x);
    }
    assert forall t :: At(s', t) == if t == a.t then PlanOf(s, a).pc else At(s, t);
  }

  /** Only Add allocates. */
  lemma NewNodes(s: State, a: Action, x: nat)
    requires DataOk(s.d) && OwnOk(s.d, a.t, At(s, a.t)) && Enabled(s, a) && x in PlanOf(s, a).d.place
    ensures x in s.d.place || (a.Add? && a.x == x)
  {
    var pc := At(s, a.t);
    if a.Go? && pc.Purge? && pc.bin != [] {
      assert pc.bin[0] in Own(pc);
    } else if a.Go? && pc.AddIn? {
      assert pc.x in Own(pc);
    } else if a.Go? && pc.SweepIn? && pc.k < |s.d.list| {
      assert s.d.list[pc.k] in s.d.list;
    }
  }

  // ----- the list is the replay

  lemma {:induction false} KeptFrame(value: map<nat, int>, x: nat, n: int, v: Option<int>, xs: seq<nat>)
    requires forall y :: y in xs ==> y != x
    ensures Kept(value[x := n], v, xs) == Kept(value, v, xs)
  {
    if xs != [] {
      assert xs[0] in xs && forall y :: y in xs[1..] ==> y in xs;
      KeptFrame(value, x, n, v, xs[1..]);
    }
  }

  lemma {:induction false} KeptIn(value: map<nat, int>, v: Option<int>, xs: seq<nat>)
    ensures forall y :: y in Kept(value, v, xs) ==> y in xs
  {
    if xs != [] {
      KeptIn(value, v, xs[1..]);
    }
  }

  /** A new node's value changes nothing that happened before. */
  lemma {:induction false} ReplayFrame(value: map<nat, int>, x: nat, n: int, log: seq<Update>)
    requires Added(x) !in log
    ensures Replay(value[x := n], log) == Replay(value, log)
    ensures x !in Replay(value, log)
  {
    if log != [] {
      var init, u := log[..|log| - 1], log[|log| - 1];
      assert u in log && forall w :: w in init ==> w in log;
      ReplayFrame(value, x, n, init);
      if u.Swept? {
        var before := Replay(value, init);
        KeptFrame(value, x, n, u.v, before);
        KeptIn(value, u.v, before);
      }
    }
  }

  /** Looking at one more node. */
  lemma KeptNext(value: map<nat, int>, v: Option<int>, xs: seq<nat>, k: nat)
    requires k < |xs|
    ensures Kept(value, v, xs[k..]) == (if Hit(value, v, xs[k]) then [] else [xs[k]]) + Kept(value, v, xs[k + 1..])
  {
    assert xs[k..][1..] == xs[k + 1..];
  }

  /** All nodes looked at: the sweep is logged. */
  lemma SweepEnds(d: Data, v: Option<int>, k: nat)
    requires k == |d.list| && Kept(d.value, v, Replay(d.value, d.log)) == d.list[..k] + Kept(d.value, v, d.list[k..])
    ensures d.list == Replay(d.value, d.log + [Swept(v)])
  {
    assert d.list[k..] == [] && d.list[..k] == d.list;
    assert (d.log + [Swept(v)])[..|d.log|] == d.log;
  }

  /** On its way to the replay. */
  ghost predicate Replaying(d: Data, v: Option<int>, k: nat) {
    k <= |d.list| && Kept(d.value, v, Replay(d.value, d.log)) == d.list[..k] + Kept(d.value, v, d.list[k..])
  }

  lemma ReplayingGoes(value: map<nat, int>, v: Option<int>, list: seq<nat>, k: nat, all: seq<nat>)
    requires k < |list| && Hit(value, v, list[k]) && all == list[..k] + Kept(value, v, list[k..])
    ensures var rest := list[..k] + list[k + 1..]; k <= |rest| && all == rest[..k] + Kept(value, v, rest[k..])
  {
    KeptNext(value, v, list, k);
    Around(list, k);
  }

  lemma ReplayingStays(value: map<nat, int>, v: Option<int>, list: seq<nat>, k: nat, all: seq<nat>)
    requires k < |list| && !Hit(value, v, list[k]) && all == list[..k] + Kept(value, v, list[k..])
    ensures all == list[..k + 1] + Kept(value, v, list[k + 1..])
  {
    KeptNext(value, v, list, k);
    Around(list, k);
  }

  lemma ReplayingNext(d: Data, t: nat, v: Option<int>, before: seq<nat>, k: nat, bin: seq<nat>)
    requires Replaying(d, v, k)
    ensures var p := SweepPlan(d, t, v, before, k, bin);
      && (p.pc.SweepOut? ==> p.d.list == Replay(p.d.value, p.d.log))
      && (p.pc.SweepIn? ==> p.d.log == d.log && Replaying(p.d, v, p.pc.k))
  {
    var all := Kept(d.value, v, Replay(d.value, d.log));
    if k >= |d.list| {
      SweepEnds(d, v, k);
    } else if Hit(d.value, v, d.list[k]) {
      ReplayingGoes(d.value, v, d.list, k, all);
    } else {
      ReplayingStays(d.value, v, d.list, k, all);
    }
  }

  lemma Around(xs: seq<nat>, k: nat)
    requires k < |xs|
    ensures var rest := xs[..k] + xs[k + 1..]; rest[..k] == xs[..k] && rest[k..] == xs[k + 1..]
    ensures xs[..k + 1] == xs[..k] + [xs[k]]
  {
  }

  lemma SweepKeepsReplay(d: Data, t: nat, v: Option<int>, before: seq<nat>, k: nat, bin: seq<nat>)
    requires ThreadOk(d, SweepIn(v, before, k, bin))
    ensures var p := SweepPlan(d, t, v, before, k, bin);
      && ThreadOk(p.d, p.pc)
      && (p.pc.SweepOut? ==> p.d.list == Replay(p.d.value, p.d.log))
      && (p.pc.SweepIn? ==> p.d.log == d.log)
  {
    ReplayingNext(d, t, v, before, k, bin);
    if k >= |d.list| {
      HalfwayDone(d.value, d.list, v, before, k, bin);
    } else {
      if Hit(d.value, v, d.list[k]) {
        OneGoes(d.value, d.list, v, before, k, bin, d.list[k]);
      } else {
        OneStays(d.value, d.list, v, before, k, bin, d.list[k]);
      }
    }
  }

  /** What a thread knows of the list survives the steps of the others: a writer has the list to itself. */
  lemma OthersKeepView(s: State, a: Action, u: nat)
    requires Inv(s) && Enabled(s, a) && u != a.t
    ensures ThreadOk(PlanOf(s, a).d, At(s, u))
  {
    var d, pc := s.d, At(s, u);
    assert ThreadOk(d, pc) && OwnOk(d, a.t, At(s, a.t));
    assert Writing(At(s, a.t)) ==> s.writer == Some(a.t);
    assert Writing(pc) ==> s.writer == Some(u);
    assert Reading(pc) ==> u in s.readers;
    if a.Add? && pc.SweepIn? {
      assert Added(a.x) !in d.log;
      ReplayingFrame(d, a.x, a.data, pc.v, pc.k);
      HalfwayFrame(d.value, a.x, a.data, d.list, pc.v, pc.before, pc.k, pc.bin);
    } else if a.Add? && pc.SweepOut? {
      DividedFrame(d.value, a.x, a.data, pc.v, pc.before);
    }
  }

  lemma ReplayingFrame(d: Data, x: nat, n: int, v: Option<int>, k: nat)
    requires Replaying(d, v, k) && Added(x) !in d.log && x !in d.list
    ensures Replaying(d.(value := d.value[x := n]), v, k)
  {
    ReplayFrame(d.value, x, n, d.log);
    KeptFrame(d.value, x, n, v, Replay(d.value, d.log));
    assert forall y :: y in d.list[k..] ==> y in d.list;
    KeptFrame(d.value, x, n, v, d.list[k..]);
  }

  lemma HalfwayFrame(value: map<nat, int>, x: nat, n: int, list: seq<nat>, v: Option<int>, before: seq<nat>, k: nat, bin: seq<nat>)
    requires Halfway(value, list, v, before, k, bin) && x !in value
    ensures Halfway(value[x := n], list, v, before, k, bin)
  {
    var m := Passed(list, before, k);
    assert forall y :: y in before[..m] ==> y in before;
    DividedFrame(value, x, n, v, before[..m]);
  }

  /** When the lock is free nobody sweeps, so the list is the replay. */
  lemma NoSweepNoWriter(s: State)
    requires Inv(s) && s.writer == None
    ensures s.d.list == Replay(s.d.value, s.d.log)
  {
    forall t: nat
      ensures !At(s, t).SweepIn?
    {
      assert Writing(At(s, t)) <==> s.writer == Some(t);
    }
  }

  lemma ReadKeepsView(d: Data, k: nat, out: seq<int>)
    requires DataOk(d) && ThreadOk(d, ReadIn(k, out))
    ensures ThreadOk(d, ReadPlan(d, k, out).pc)
  {
    if k < |d.list| {
      assert d.list[k] in d.list;
    }
  }

  lemma KeepsOwnView(s: State, a: Action)
    requires Inv(s) && Enabled(s, a)
    ensures ThreadOk(PlanOf(s, a).d, PlanOf(s, a).pc)
  {
    var d, pc := s.d, At(s, a.t);
    assert ThreadOk(d, pc);
    if a.Go? {
      match pc
      case SweepWait(v) =>
        NoSweepNoWriter(s);
        assert d.list[..0] == [] && d.list[0..] == d.list;
        assert forall x :: x in d.list ==> x in d.place;
      case SweepIn(v, before, k, bin) => SweepKeepsReplay(d, a.t, v, before, k, bin);
      case ReadWait =>
      case ReadIn(k, out) => ReadKeepsView(d, k, out);
      case _ =>
    }
  }

  /** Only the writer can sweep. */
  lemma OneSweeper(s: State, t: nat, u: nat)
    requires LockOk(s) && Writing(At(s, t)) && At(s, u).SweepIn?
    ensures t == u
  {
    assert Writing(At(s, u));
  }

  /** Outside a sweep, a step that changes the list logs what it does. */
  lemma StepReplays(s: State, a: Action)
    requires Enabled(s, a) && DataOk(s.d) && s.d.list == Replay(s.d.value, s.d.log) && !At(s, a.t).SweepIn?
    requires forall x :: Added(x) in s.d.log ==> x in s.d.value
    ensures var d := PlanOf(s, a).d; d.list == Replay(d.value, d.log)
  {
    if a.Add? {
      ReplayFrame(s.d.value, a.x, a.data, s.d.log);
    } else if a.Go? && At(s, a.t).AddIn? {
      var d := PlanOf(s, a).d;
      assert d.log[..|s.d.log|] == s.d.log;
    }
  }

  lemma KeepsLogged(s: State, a: Action)
    requires Enabled(s, a) && DataOk(s.d) && OwnOk(s.d, a.t, At(s, a.t))
    requires forall x :: Added(x) in s.d.log ==> x in s.d.value
    ensures forall x :: Added(x) in PlanOf(s, a).d.log ==> x in PlanOf(s, a).d.value
  {
    if a.Go? && At(s, a.t).AddIn? {
      assert At(s, a.t).x in Own(At(s, a.t));
    }
  }

  lemma KeepsReplay(s: State, a: Action)
    requires Enabled(s, a) && DataOk(s.d) && ThreadOk(s.d, At(s, a.t))
    requires Sweeping(s) || s.d.list == Replay(s.d.value, s.d.log)
    requires forall x :: Added(x) in s.d.log ==> x in s.d.value
    requires forall t :: At(s, t).SweepIn? && Writing(At(s, a.t)) ==> t == a.t
    ensures var s' := Apply(s, a); Sweeping(s') || s'.d.list == Replay(s'.d.value, s'.d.log)
  {
    var s', pc := Apply(s, a), At(s, a.t);
    if u :| At(s, u).SweepIn? {
      if u != a.t {
        assert At(s', u) == At(s, u);
      } else if a.Go? {
        SweepKeepsReplay(s.d, a.t, pc.v, pc.before, pc.k, pc.bin);
        assert At(s', u) == PlanOf(s, a).pc;
      }
    } else {
      StepReplays(s, a);
    }
  }

  lemma InvStep(s: State, a: Action)
    requires Inv(s) && Enabled(s, a)
    ensures Inv(Apply(s, a))
  {
    var s' := Apply(s, a);
    KeepsLock(s, a);
    KeepsData(s, a);
    KeepsOwnView(s, a);
    assert ThreadOk(s.d, At(s, a.t)) && OwnOk(s.d, a.t, At(s, a.t));
    forall t | At(s, t).SweepIn? && Writing(At(s, a.t))
      ensures t == a.t
    {
      OneSweeper(s, a.t, t);
    }
    KeepsReplay(s, a);
    KeepsLogged(s, a);
    forall t
      ensures OwnOk(s'.d, t, At(s', t)) && ThreadOk(s'.d, At(s', t))
    {
      if t != a.t {
        OthersKeepTheirs(s, a, t);
        OthersKeepView(s, a, t);
      }
    }
    forall x | x in s'.d.place
      ensures Located(s', x)
    {
      KeepsLocated(s, a, x);
    }
  }

  lemma {:induction false} InvRun(tr: seq<State>, i: nat)
    requires Run(tr) && i < |tr|
    ensures Inv(tr[i])
  {
    if i > 0 {
      InvRun(tr, i - 1);
      assert Next(tr[i - 1], tr[i - 1 + 1]);
      var a :| Enabled(tr[i - 1], a) && tr[i] == Apply(tr[i - 1], a);
      InvStep(tr[i - 1], a);
    }
  }

  // ----- the theorems

  /** Whenever nobody writes, the list is what the updates make of it, one after the other in the order of the lock. */
  lemma ListIsReplay(tr: seq<State>, i: nat)
    requires Run(tr) && i < |tr| && tr[i].writer == None
    ensures tr[i].d.list == Replay(tr[i].d.value, tr[i].d.log)
  {
    InvRun(tr, i);
    NoSweepNoWriter(tr[i]);
  }

  /** A sweep begins with the list as it is. */
  lemma SweepBegins(s: State, t: nat)
    requires Enabled(s, Go(t)) && At(s, t).SweepWait?
    ensures At(Apply(s, Go(t)), t) == SweepIn(At(s, t).v, s.d.list, 0, []) && s.writer == None && s.readers == {}
  {
  }

  lemma {:induction false} StayingIs(value: map<nat, int>, n: int, xs: seq<nat>)
    requires forall x :: x in xs ==> x in value
    ensures forall x :: x in Staying(value, Some(n), xs) <==> x in xs && value[x] != n
    ensures forall x :: x in Going(value, Some(n), xs) <==> x in xs && value[x] == n
  {
    if xs != [] {
      var init, last := xs[..|xs| - 1], xs[|xs| - 1];
      assert last in xs && xs == init + [last];
      StayingIs(value, n, init);
    }
  }

  lemma NextNode(value: map<nat, int>, v: Option<int>, init: seq<nat>, x: nat)
    ensures (Staying(value, v, init + [x]), Going(value, v, init + [x]))
         == if v == None || (x in value && value[x] == v.value)
            then (Staying(value, v, init), [x] + Going(value, v, init))
            else (Staying(value, v, init) + [x], Going(value, v, init))
  {
    assert (init + [x])[..|init|] == init;
    assert Staying(value, v, init) + [] == Staying(value, v, init) && [] + Going(value, v, init) == Going(value, v, init);
  }

  /** A node more on either side is a node more in both together. */
  lemma OneMore(stay: seq<nat>, go: seq<nat>, stay': seq<nat>, go': seq<nat>, all: seq<nat>, x: nat)
    requires multiset(stay) + multiset(go) == multiset(all)
    requires (stay', go') == (stay, [x] + go) || (stay', go') == (stay + [x], go)
    ensures multiset(stay') + multiset(go') == multiset(all + [x])
  {
  }

  lemma {:induction false} NoneLost(value: map<nat, int>, v: Option<int>, xs: seq<nat>)
    ensures multiset(Staying(value, v, xs)) + multiset(Going(value, v, xs)) == multiset(xs)
  {
    if xs != [] {
      var init, x := xs[..|xs| - 1], xs[|xs| - 1];
      assert xs == init + [x];
      NoneLost(value, v, init);
      NextNode(value, v, init, x);
      OneMore(Staying(value, v, init), Going(value, v, init), Staying(value, v, xs), Going(value, v, xs), init, x);
    }
  }

  /**
    At the end of a sweep the list is what it was at its beginning without exactly the nodes of that value, in order,
    and the bin holds exactly those; a sweep of everything leaves nothing on the list.
   */
  lemma SweepRemovesExactly(tr: seq<State>, i: nat, t: nat)
    requires Run(tr) && i < |tr| && At(tr[i], t).SweepOut?
    ensures var d, pc := tr[i].d, At(tr[i], t);
      && multiset(pc.before) == multiset(d.list) + multiset(pc.bin)
      && (forall x :: x in pc.before ==> x in d.value)
      && match pc.v
         case None => d.list == []
         case Some(n) =>
           && d.list == Staying(d.value, Some(n), pc.before)
           && (forall x :: x in d.list <==> x in pc.before && d.value[x] != n)
           && (forall x :: x in pc.bin <==> x in pc.before && d.value[x] == n)
  {
    InvRun(tr, i);
    var d, pc := tr[i].d, At(tr[i], t);
    assert ThreadOk(d, pc);
    NoneLost(d.value, pc.v, pc.before);
    if pc.v.Some? {
      StayingIs(d.value, pc.v.value, pc.before);
    }
  }

  /** A reader prints the values of that list, from the front: all of them, unless its buffer is used up. */
  lemma ReadersSeeReplay(tr: seq<State>, i: nat, t: nat)
    requires Run(tr) && i < |tr| && Reading(At(tr[i], t))
    ensures var d, pc := tr[i].d, At(tr[i], t);
      var list := Replay(d.value, d.log);
      && |pc.out| <= |list|
      && (forall j :: 0 <= j < |pc.out| ==> list[j] in d.value && pc.out[j] == d.value[list[j]])
      && (pc.ReadOut? && !pc.full ==> |pc.out| == |list|)
  {
    InvRun(tr, i);
    assert t in tr[i].readers;
    NoSweepNoWriter(tr[i]);
    assert ThreadOk(tr[i].d, At(tr[i], t));
  }

  /** No node is freed twice, and none while it is on the list or in a thread's hands. */
  lemma FreedOnce(tr: seq<State>, i: nat, t: nat)
    requires Run(tr) && i < |tr|
    ensures var d := tr[i].d;
      && (forall j, k :: 0 <= j < k < |d.freed| ==> d.freed[j] != d.freed[k])
      && (forall x :: x in d.list ==> x !in d.freed)
      && (forall x :: x in Own(At(tr[i], t)) ==> x !in d.freed && x !in d.list)
  {
    InvRun(tr, i);
    assert OwnOk(tr[i].d, t, At(tr[i], t));
  }

  /** Every allocated node is on the list, freed, or in the hands of one thread, and no two threads share one. */
  lemma NoNodeLost(tr: seq<State>, i: nat, x: nat)
    requires Run(tr) && i < |tr| && x in tr[i].d.value
    ensures x in tr[i].d.list || x in tr[i].d.freed || exists t :: x in Own(At(tr[i], t))
    ensures forall t, u :: x in Own(At(tr[i], t)) && x in Own(At(tr[i], u)) ==> t == u
  {
    InvRun(tr, i);
    assert x in tr[i].d.place && Located(tr[i], x);
    forall t, u | x in Own(At(tr[i], t)) && x in Own(At(tr[i], u))
      ensures t == u
    {
      assert OwnOk(tr[i].d, t, At(tr[i], t)) && OwnOk(tr[i].d, u, At(tr[i], u));
    }
  }
}
