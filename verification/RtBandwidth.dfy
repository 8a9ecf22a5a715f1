/**
  Admission control for real-time bandwidth over the tree of task groups. Every
  check is one walk of the tree; what is proved is the invariant the checks keep
  over group creation and every change, local or global.
 */
module RtBandwidth {
  import opened Counting
  import opened TaskGroups
  import Arithmetic

  type Pos = x: int | x > 0 witness 1

  const WORD: nat := 0x1_0000_0000_0000_0000
  const RUNTIME_INF: nat := WORD - 1
  const UNIT: nat := 0x10_0000               // 1 << 20
  const NSEC_PER_USEC: nat := 1000
  const EINVAL := -22
  const EBUSY := -16

  datatype Bandwidth = Bandwidth(period: Pos, runtime: nat)

  /** to_ratio, with the shift cut to 64 bits. */
  function Ratio(b: Bandwidth): nat {
    if b.runtime == RUNTIME_INF then UNIT else (b.runtime * UNIT) % WORD / b.period
  }

  predicate Fits(b: Bandwidth) {
    b.runtime <= b.period || b.runtime == RUNTIME_INF
  }

  function RatioSum(ids: seq<nat>, bw: map<nat, Bandwidth>): nat {
    if ids == [] then 0 else (if ids[0] in bw then Ratio(bw[ids[0]]) else 0) + RatioSum(ids[1..], bw)
  }

  /** One group: runtime within period, ratio within the global one, children within the group. */
  ghost predicate GroupFits(id: nat, kids: seq<nat>, bw: map<nat, Bandwidth>, global: Bandwidth) {
    && id in bw
    && Fits(bw[id])
    && Ratio(bw[id]) <= Ratio(global)
    && RatioSum(kids, bw) <= Ratio(bw[id])
  }

  /** The invariant: every group of the tree fits. */
  ghost predicate Admissible(t: Tree, bw: map<nat, Bandwidth>, global: Bandwidth)
    decreases t, 1
  {
    GroupFits(t.id, Ids(t.kids), bw, global) && AllAdmissible(t.kids, bw, global)
  }

  ghost predicate AllAdmissible(ts: seq<Tree>, bw: map<nat, Bandwidth>, global: Bandwidth)
    decreases ts, 0
  {
    ts == [] || (Admissible(ts[0], bw, global) && AllAdmissible(ts[1..], bw, global))
  }

  /** No group that has real-time tasks is left without runtime. */
  ghost predicate Fed(t: Tree, bw: map<nat, Bandwidth>, hungry: set<nat>)
    decreases t, 1
  {
    (t.id in bw && bw[t.id].runtime == 0 ==> t.id !in hungry) && AllFed(t.kids, bw, hungry)
  }

  ghost predicate AllFed(ts: seq<Tree>, bw: map<nat, Bandwidth>, hungry: set<nat>)
    decreases ts, 0
  {
    ts == [] || (Fed(ts[0], bw, hungry) && AllFed(ts[1..], bw, hungry))
  }

  // ----- the check

  /** What one walk looks at: the tree's links, the bandwidths, and the change under test. */
  datatype Check = Check(
    groups: map<nat, Group>,
    bw: map<nat, Bandwidth>,
    tg: Option<nat>,
    change: Bandwidth,
    global: Bandwidth,
    hungry: set<nat>)                        // groups with real-time tasks, when limits are enforced

  /** The bandwidths as they would be after the change. */
  function Changed(c: Check): map<nat, Bandwidth> {
    if c.tg.Some? then c.bw[c.tg.value := c.change] else c.bw
  }

  function TgSchedulable(c: Check, id: nat): int {
    if id !in c.groups || id !in Changed(c) then EINVAL else
    var b := if c.tg == Some(id) then c.change else c.bw[id];
    if b.runtime > b.period && b.runtime != RUNTIME_INF then EINVAL
    else if b.runtime == 0 && id in c.hungry then EBUSY
    else if Ratio(b) > Ratio(c.global) then EINVAL
    else if ChildSum(c, c.groups[id].children) > Ratio(b) then EINVAL
    else 0
  }

  /** The loop over the children, each with the change under test if it is the group being changed. */
  function ChildSum(c: Check, ids: seq<nat>): nat {
    if ids == [] then 0
    else
      var b := if c.tg == Some(ids[0]) then Ratio(c.change) else if ids[0] in c.bw then Ratio(c.bw[ids[0]]) else 0;
      b + ChildSum(c, ids[1..])
  }

  function Checker(c: Check): Visitor<()> {
    (id: nat, u: ()) => ((), TgSchedulable(c, id))
  }

  function Nop(): Visitor<()> {
    (id: nat, u: ()) => ((), 0)
  }

  lemma {:induction false} ChildSumIsRatioSum(c: Check, ids: seq<nat>)
    ensures ChildSum(c, ids) == RatioSum(ids, Changed(c))
  {
    if ids != [] {
      ChildSumIsRatioSum(c, ids[1..]);
    }
  }

  /** A refusal says why: EINVAL a group that does not fit, EBUSY one left without runtime. */
  ghost predicate Explains(err: int, fits: bool, fed: bool) {
    && (err == 0 <==> fits && fed)
    && (err == EINVAL ==> !fits)
    && (err == EBUSY ==> !fed)
    && err in {0, EINVAL, EBUSY}
  }

  /** The walk accepts exactly the changes that leave the tree admissible and every hungry group fed. */
  lemma {:induction false} WalkDecides(c: Check, t: Tree, parent: Option<nat>, next: Option<nat>, o: Outcome<()>)
    requires Linked(c.groups, t, parent, next)
    ensures Explains(Dfs(t, Checker(c), Nop(), o).ret, Admissible(t, Changed(c), c.global), Fed(t, Changed(c), c.hungry))
    decreases t, 1
  {
    ChildSumIsRatioSum(c, Ids(t.kids));
    var o1 := Call(Checker(c), Down(t.id), o);
    if o1.ret == 0 {
      assert t.kids[0..] == t.kids;
      RestDecides(c, t, 0, parent, next, o1);
    }
  }

  lemma {:induction false} RestDecides(c: Check, t: Tree, i: nat, parent: Option<nat>, next: Option<nat>, o: Outcome<()>)
    requires Linked(c.groups, t, parent, next) && i <= |t.kids|
    ensures Explains(Finish(t, i, Checker(c), Nop(), o).ret,
                     AllAdmissible(t.kids[i..], Changed(c), c.global), AllFed(t.kids[i..], Changed(c), c.hungry))
    decreases t, 0, |t.kids| - i
  {
    if i < |t.kids| {
      assert KidLinked(c.groups, t, i);
      WalkDecides(c, t.kids[i], Some(t.id), IdAt(t.kids, i + 1), o);
      assert t.kids[i..][1..] == t.kids[i + 1..];
      RestDecides(c, t, i + 1, parent, next, Dfs(t.kids[i], Checker(c), Nop(), o));
    }
  }

  // ----- the groups of the tree

  function Nodes(t: Tree): set<nat>
    decreases t, 1
  {
    {t.id} + NodesOf(t.kids)
  }

  function NodesOf(ts: seq<Tree>): set<nat>
    decreases ts, 0
  {
    if ts == [] then {} else Nodes(ts[0]) + NodesOf(ts[1..])
  }

  /** Everyone is fed exactly when no group of the tree has real-time tasks and no runtime. */
  lemma {:induction false} FedIs(t: Tree, bw: map<nat, Bandwidth>, hungry: set<nat>)
    ensures Fed(t, bw, hungry) <==> forall id :: id in Nodes(t) && id in bw && bw[id].runtime == 0 ==> id !in hungry
    decreases t, 1
  {
    AllFedIs(t.kids, bw, hungry);
  }

  lemma {:induction false} AllFedIs(ts: seq<Tree>, bw: map<nat, Bandwidth>, hungry: set<nat>)
    ensures AllFed(ts, bw, hungry) <==> forall id :: id in NodesOf(ts) && id in bw && bw[id].runtime == 0 ==> id !in hungry
    decreases ts, 0
  {
    if ts != [] {
      FedIs(ts[0], bw, hungry);
      AllFedIs(ts[1..], bw, hungry);
    }
  }

  lemma {:induction false} AddKidNodes(t: Tree, p: nat, new_: nat)
    ensures Nodes(AddKid(t, p, new_)) == Nodes(t) + if p in Nodes(t) then {new_} else {}
    decreases t, 1
  {
    AddKidsNodes(t.kids, p, new_);
    var kids := AddKids(t.kids, p, new_);
    if t.id == p {
      assert ([Node(new_, [])] + kids)[1..] == kids && NodesOf([]) == {} && Nodes(Node(new_, [])) == {new_};
    }
  }

  lemma {:induction false} AddKidsNodes(ts: seq<Tree>, p: nat, new_: nat)
    ensures NodesOf(AddKids(ts, p, new_)) == NodesOf(ts) + if p in NodesOf(ts) then {new_} else {}
    decreases ts, 0
  {
    if ts != [] {
      AddKidNodes(ts[0], p, new_);
      AddKidsNodes(ts[1..], p, new_);
      assert AddKids(ts, p, new_)[1..] == AddKids(ts[1..], p, new_);
    }
  }

  // ----- a new group

  /** `t` with a new childless group at the head of the children of `p`. */
  function AddKid(t: Tree, p: nat, new_: nat): (r: Tree)
    ensures r.id == t.id
    decreases t, 1
  {
    var kids := AddKids(t.kids, p, new_);
    Node(t.id, if t.id == p then [Node(new_, [])] + kids else kids)
  }

  function AddKids(ts: seq<Tree>, p: nat, new_: nat): (rs: seq<Tree>)
    ensures |rs| == |ts|
    ensures forall i :: 0 <= i < |ts| ==> rs[i] == AddKid(ts[i], p, new_)
    decreases ts, 0
  {
    if ts == [] then [] else [AddKid(ts[0], p, new_)] + AddKids(ts[1..], p, new_)
  }

  /** list_add of the new group to the children of `p`. */
  function LinkIn(h: map<nat, Group>, p: nat, new_: nat): map<nat, Group>
    requires p in h
  {
    var list := h[p].children;
    h[new_ := Group(Some(p), [], if list == [] then None else Some(list[0]))][p := h[p].(children := [new_] + list)]
  }

  /** The children of an enlarged node: the old ones, enlarged, with the new group before them if it is theirs. */
  lemma KidsShift(t: Tree, p: nat, new_: nat)
    ensures Ids(AddKids(t.kids, p, new_)) == Ids(t.kids)
    ensures Ids(AddKid(t, p, new_).kids) == if t.id == p then [new_] + Ids(t.kids) else Ids(t.kids)
  {
  }

  lemma {:induction false} LinkInLinked(h: map<nat, Group>, t: Tree, p: nat, new_: nat, parent: Option<nat>, next: Option<nat>)
    requires Linked(h, t, parent, next) && p in h && new_ !in h
    ensures Linked(LinkIn(h, p, new_), AddKid(t, p, new_), parent, next)
    decreases t, 1
  {
    var h', r := LinkIn(h, p, new_), AddKid(t, p, new_);
    KidsShift(t, p, new_);
    forall i | 0 <= i < |r.kids|
      ensures KidLinked(h', r, i)
    {
      if t.id != p {
        OldKidLinked(h, t, p, new_, i);
      } else if i > 0 {
        OldKidLinked(h, t, p, new_, i - 1);
      } else {
        assert h'[new_] == Group(Some(p), [], IdAt(r.kids, 1));
      }
    }
  }

  lemma {:induction false} OldKidLinked(h: map<nat, Group>, t: Tree, p: nat, new_: nat, i: nat)
    requires (forall k {:trigger KidLinked(h, t, k)} :: 0 <= k < |t.kids| ==> KidLinked(h, t, k)) && p in h && new_ !in h && i < |t.kids|
    ensures var kids := AddKids(t.kids, p, new_); Linked(LinkIn(h, p, new_), kids[i], Some(t.id), IdAt(kids, i + 1))
    decreases t, 0
  {
    assert KidLinked(h, t, i);
    LinkInLinked(h, t.kids[i], p, new_, Some(t.id), IdAt(t.kids, i + 1));
  }

  lemma {:induction false} RatioSumFrame(ids: seq<nat>, bw: map<nat, Bandwidth>, bw': map<nat, Bandwidth>)
    requires forall x :: x in ids ==> x in bw && x in bw' && bw[x] == bw'[x]
    ensures RatioSum(ids, bw) == RatioSum(ids, bw')
  {
    if ids != [] {
      RatioSumFrame(ids[1..], bw, bw');
    }
  }

  /** A new group starts with no runtime, which no sum notices. */
  lemma NewKidFits(id: nat, kids: seq<nat>, bw: map<nat, Bandwidth>, global: Bandwidth, new_: nat, period: Pos)
    requires GroupFits(id, kids, bw, global) && new_ !in bw && forall x :: x in kids ==> x in bw
    ensures GroupFits(id, kids, bw[new_ := Bandwidth(period, 0)], global)
    ensures GroupFits(id, [new_] + kids, bw[new_ := Bandwidth(period, 0)], global)
    ensures GroupFits(new_, [], bw[new_ := Bandwidth(period, 0)], global)
  {
    RatioSumFrame(kids, bw, bw[new_ := Bandwidth(period, 0)]);
    assert ([new_] + kids)[1..] == kids;
  }

  lemma {:induction false} AddKidAdmissible(t: Tree, bw: map<nat, Bandwidth>, global: Bandwidth, p: nat, new_: nat, period: Pos)
    requires Admissible(t, bw, global) && new_ !in bw
    ensures Admissible(AddKid(t, p, new_), bw[new_ := Bandwidth(period, 0)], global)
    decreases t, 1
  {
    var bw', r, kids := bw[new_ := Bandwidth(period, 0)], AddKid(t, p, new_), AddKids(t.kids, p, new_);
    AddKidsAdmissible(t.kids, bw, global, p, new_, period);
    NewKidFits(t.id, Ids(t.kids), bw, global, new_, period);
    assert Ids(kids) == Ids(t.kids);
    if t.id == p {
      assert r.kids[1..] == kids && Ids(r.kids[0].kids) == [];
      assert Admissible(r.kids[0], bw', global);
      assert Ids(r.kids) == [new_] + Ids(kids);
    }
  }

  lemma {:induction false} AddKidsAdmissible(ts: seq<Tree>, bw: map<nat, Bandwidth>, global: Bandwidth, p: nat, new_: nat, period: Pos)
    requires AllAdmissible(ts, bw, global) && new_ !in bw
    ensures AllAdmissible(AddKids(ts, p, new_), bw[new_ := Bandwidth(period, 0)], global)
    ensures forall x :: x in Ids(ts) ==> x in bw
    decreases ts, 0
  {
    if ts != [] {
      AddKidAdmissible(ts[0], bw, global, p, new_, period);
      AddKidsAdmissible(ts[1..], bw, global, p, new_, period);
      assert Ids(ts) == [ts[0].id] + Ids(ts[1..]);
      assert AddKids(ts, p, new_)[1..] == AddKids(ts[1..], p, new_);
    }
  }

  // ----- what the invariant is for

  /** Some group of the subtree is in `s`. */
  ghost predicate Touches(t: Tree, s: set<nat>) {
    t.id in s || exists i :: 0 <= i < |t.kids| && Touches(t.kids[i], s)
  }

  /** No group of `s` is an ancestor of another. */
  ghost predicate Antichain(t: Tree, s: set<nat>) {
    && (t.id in s ==> forall i :: 0 <= i < |t.kids| ==> !Touches(t.kids[i], s))
    && forall i :: 0 <= i < |t.kids| ==> Antichain(t.kids[i], s)
  }

  /** The sum of the ratios of the groups in `s`. */
  function Total(t: Tree, s: set<nat>, bw: map<nat, Bandwidth>): nat
    decreases t, 1
  {
    (if t.id in s && t.id in bw then Ratio(bw[t.id]) else 0) + TotalOf(t.kids, s, bw)
  }

  function TotalOf(ts: seq<Tree>, s: set<nat>, bw: map<nat, Bandwidth>): nat
    decreases ts, 0
  {
    if ts == [] then 0 else Total(ts[0], s, bw) + TotalOf(ts[1..], s, bw)
  }

  lemma {:induction false} UntouchedTotal(t: Tree, s: set<nat>, bw: map<nat, Bandwidth>)
    requires !Touches(t, s)
    ensures Total(t, s, bw) == 0
    decreases t, 1
  {
    UntouchedTotals(t.kids, s, bw);
  }

  lemma {:induction false} UntouchedTotals(ts: seq<Tree>, s: set<nat>, bw: map<nat, Bandwidth>)
    requires forall i :: 0 <= i < |ts| ==> !Touches(ts[i], s)
    ensures TotalOf(ts, s, bw) == 0
    decreases ts, 0
  {
    if ts != [] {
      UntouchedTotal(ts[0], s, bw);
      UntouchedTotals(ts[1..], s, bw);
    }
  }

  /** Groups none of which is an ancestor of another share at most the root's ratio, and that is at most the global one. */
  lemma {:induction false} AntichainBounded(t: Tree, s: set<nat>, bw: map<nat, Bandwidth>, global: Bandwidth)
    requires Admissible(t, bw, global) && Antichain(t, s)
    ensures Total(t, s, bw) <= Ratio(bw[t.id]) <= Ratio(global)
    decreases t, 1
  {
    if t.id in s {
      UntouchedTotals(t.kids, s, bw);
    } else {
      KidsBounded(t.kids, s, bw, global);
    }
  }

  lemma {:induction false} KidsBounded(ts: seq<Tree>, s: set<nat>, bw: map<nat, Bandwidth>, global: Bandwidth)
    requires AllAdmissible(ts, bw, global) && forall i :: 0 <= i < |ts| ==> Antichain(ts[i], s)
    ensures TotalOf(ts, s, bw) <= RatioSum(Ids(ts), bw)
    decreases ts, 0
  {
    if ts != [] {
      AntichainBounded(ts[0], s, bw, global);
      KidsBounded(ts[1..], s, bw, global);
      assert Ids(ts)[1..] == Ids(ts[1..]);
    }
  }

  // ----- the global limit binds through the root

  /** Every group within its period and over its children: all of the invariant but the global limit. */
  ghost predicate Inner(t: Tree, bw: map<nat, Bandwidth>)
    decreases t, 1
  {
    && t.id in bw && Fits(bw[t.id])
    && RatioSum(Ids(t.kids), bw) <= Ratio(bw[t.id])
    && AllInner(t.kids, bw)
  }

  ghost predicate AllInner(ts: seq<Tree>, bw: map<nat, Bandwidth>)
    decreases ts, 0
  {
    ts == [] || (Inner(ts[0], bw) && AllInner(ts[1..], bw))
  }

  /** A group's ratio is bounded by its parent's, so the limit holds everywhere exactly when it holds at the root. */
  lemma {:induction false} LimitAtRoot(t: Tree, bw: map<nat, Bandwidth>, global: Bandwidth)
    ensures Admissible(t, bw, global) <==> Inner(t, bw) && Ratio(bw[t.id]) <= Ratio(global)
    decreases t, 1
  {
    if t.id in bw && RatioSum(Ids(t.kids), bw) <= Ratio(bw[t.id]) <= Ratio(global) {
      LimitAtRoots(t.kids, bw, global);
    }
  }

  lemma {:induction false} LimitAtRoots(ts: seq<Tree>, bw: map<nat, Bandwidth>, global: Bandwidth)
    requires RatioSum(Ids(ts), bw) <= Ratio(global)
    ensures AllAdmissible(ts, bw, global) <==> AllInner(ts, bw)
    decreases ts, 0
  {
    if ts != [] {
      assert Ids(ts)[1..] == Ids(ts[1..]);
      LimitAtRoot(ts[0], bw, global);
      LimitAtRoots(ts[1..], bw, global);
    }
  }

  // ----- group calls between the two halves of a global change

  /** A call that comes between the write of the global values and their check. */
  datatype GroupCall =
    | Set(tg: nat, to: Bandwidth, rtTasks: set<nat>)
    | Create(parent: nat, new_: nat, period: Pos)

  /** What it leaves while `n`, from the runtime `runtimeUs`, is the limit in force. */
  ghost function AfterCall(t: Tree, bw: map<nat, Bandwidth>, c: GroupCall, n: Bandwidth, runtimeUs: int): (Tree, map<nat, Bandwidth>) {
    match c
    case Set(tg, to, rtTasks) =>
      var bw' := bw[tg := to];
      (t, if tg in bw && Admissible(t, bw', n) && Fed(t, bw', HungryOf(runtimeUs, rtTasks)) then bw' else bw)
    case Create(parent, new_, period) =>
      if parent in bw && new_ !in bw then (AddKid(t, parent, new_), bw[new_ := Bandwidth(period, 0)]) else (t, bw)
  }

  ghost function AfterCalls(t: Tree, bw: map<nat, Bandwidth>, cs: seq<GroupCall>, n: Bandwidth, runtimeUs: int): (Tree, map<nat, Bandwidth>) {
    if cs == [] then (t, bw)
    else
      var (t1, bw1) := AfterCalls(t, bw, cs[..|cs| - 1], n, runtimeUs);
      AfterCall(t1, bw1, cs[|cs| - 1], n, runtimeUs)
  }

  /** A call keeps the groups sound among themselves, and the root below one of the two limits. */
  lemma CallKeeps(t: Tree, bw: map<nat, Bandwidth>, c: GroupCall, n: Bandwidth, runtimeUs: int, before: Bandwidth)
    requires Inner(t, bw) && (Ratio(bw[t.id]) <= Ratio(before) || Ratio(bw[t.id]) <= Ratio(n))
    ensures var (t', bw') := AfterCall(t, bw, c, n, runtimeUs);
      t'.id == t.id && Inner(t', bw') && (Ratio(bw'[t.id]) <= Ratio(before) || Ratio(bw'[t.id]) <= Ratio(n))
  {
    match c
    case Set(tg, to, _) => LimitAtRoot(t, bw[tg := to], n);
    case Create(parent, new_, period) =>
      if parent in bw && new_ !in bw {
        LimitAtRoot(t, bw, bw[t.id]);
        AddKidAdmissible(t, bw, bw[t.id], parent, new_, period);
        LimitAtRoot(AddKid(t, parent, new_), bw[new_ := Bandwidth(period, 0)], bw[t.id]);
      }
  }

  lemma {:induction false} CallsKeep(t: Tree, bw: map<nat, Bandwidth>, cs: seq<GroupCall>, n: Bandwidth, runtimeUs: int, before: Bandwidth)
    requires Admissible(t, bw, before)
    ensures var (t', bw') := AfterCalls(t, bw, cs, n, runtimeUs);
      t'.id == t.id && Inner(t', bw') && (Ratio(bw'[t.id]) <= Ratio(before) || Ratio(bw'[t.id]) <= Ratio(n))
  {
    if cs == [] {
      LimitAtRoot(t, bw, before);
    } else {
      CallsKeep(t, bw, cs[..|cs| - 1], n, runtimeUs, before);
      var (t1, bw1) := AfterCalls(t, bw, cs[..|cs| - 1], n, runtimeUs);
      CallKeeps(t1, bw1, cs[|cs| - 1], n, runtimeUs, before);
    }
  }

  /** The second half accepts the new limit. */
  ghost predicate Accepts(t: Tree, bw: map<nat, Bandwidth>, n: Bandwidth, hungry: set<nat>) {
    Fits(n) && Admissible(t, bw, n) && Fed(t, bw, hungry)
  }

  /**
    Any number of calls between the two halves. Some group ends above the limit that is then in force exactly when
    they have left the root above the old limit and the new one is refused: because it exceeds its own period, or
    because a group with real-time tasks has no runtime by then.
   */
  lemma OvertakenExactly(t: Tree, bw: map<nat, Bandwidth>, cs: seq<GroupCall>, periodUs: Pos, runtimeUs: int, rtTasks: set<nat>, before: Bandwidth)
    requires Admissible(t, bw, before)
    ensures var n := GlobalOf(periodUs, runtimeUs);
      var (t', bw') := AfterCalls(t, bw, cs, n, runtimeUs);
      var hungry := HungryOf(runtimeUs, rtTasks);
      && t'.id == t.id && t.id in bw'
      && ((!Admissible(t', bw', if Accepts(t', bw', n, hungry) then n else before))
          <==> (Ratio(bw'[t.id]) > Ratio(before) && (!Fits(n) || !Fed(t', bw', hungry))))
  {
    var n := GlobalOf(periodUs, runtimeUs);
    CallsKeep(t, bw, cs, n, runtimeUs, before);
    var (t', bw') := AfterCalls(t, bw, cs, n, runtimeUs);
    LimitAtRoot(t', bw', n);
    LimitAtRoot(t', bw', before);
  }

  /** No limit weighs as much as the whole period: 2^20, and no bandwidth within its period weighs more. */
  lemma UnlimitedIsWhole(b: Bandwidth)
    ensures b.runtime == 0xffff_ffff_ffff_ffff ==> Ratio(b) == 1048576
    ensures b.runtime <= b.period && b.runtime < 0xffff_ffff_ffff_ffff ==> Ratio(b) <= 1048576
    ensures b.runtime < b.period && b.runtime < 0xffff_ffff_ffff_ffff ==> Ratio(b) < 1048576
    ensures b.runtime == b.period && b.runtime * 1048576 < WORD ==> Ratio(b) == 1048576
  {
    var n := b.runtime * UNIT % WORD;
    assert n <= b.runtime * UNIT;
    ShareBelow(n, b.runtime, b.period);
    if b.runtime == b.period && b.runtime * 1048576 < WORD {
      Arithmetic.QuotientIs(n, b.period, UNIT, 0);
    }
  }

  lemma ShareBelow(n: nat, runtime: nat, period: nat)
    requires period > 0 && n <= runtime * UNIT
    ensures runtime <= period ==> n / period <= UNIT
    ensures runtime < period ==> n / period < UNIT
  {
    Arithmetic.QuotientBounds(n, period);
    var q: nat := n / period;
    if runtime < period && q >= UNIT {
      Below(period, UNIT, q);
    }
    if runtime <= period && q >= UNIT + 1 {
      Below(period, UNIT + 1, q);
    }
  }

  lemma Below(p: nat, x: nat, y: nat)
    requires x <= y
    ensures p * x <= p * y
  {
  }

  /** Under a limited runtime, a group without limit fits nowhere; without a limit, whatever fits its period does. */
  lemma UnlimitedNeedsUnlimited(b: Bandwidth, periodUs: Pos, runtimeUs: int)
    requires Fits(b)
    ensures b.runtime == RUNTIME_INF && 0 <= runtimeUs < periodUs && runtimeUs * NSEC_PER_USEC < RUNTIME_INF
      ==> Ratio(b) > Ratio(GlobalOf(periodUs, runtimeUs))
    ensures runtimeUs < 0 ==> Ratio(b) <= Ratio(GlobalOf(periodUs, runtimeUs))
  {
    UnlimitedIsWhole(b);
    UnlimitedIsWhole(GlobalOf(periodUs, runtimeUs));
  }

  /** A larger share of the period never has a smaller ratio. */
  lemma RatioInOrder(a: Bandwidth, b: Bandwidth)
    requires a.runtime * UNIT < WORD && b.runtime * UNIT < WORD && a.runtime * b.period <= b.runtime * a.period
    ensures Ratio(a) <= Ratio(b)
  {
    RatioIsShare(a);
    RatioIsShare(b);
    if Ratio(a) > Ratio(b) {
      Crossed(a.runtime, a.period, Ratio(a), b.runtime, b.period, Ratio(b));
    }
  }

  lemma Crossed(ar: nat, ap: nat, x: nat, br: nat, bp: nat, y: nat)
    requires ap > 0 && bp > 0 && x * ap <= ar * UNIT && br * UNIT < (y + 1) * bp && ar * bp <= br * ap
    ensures x <= y
  {
    assert bp * ((y + 1) * ap) == ap * ((y + 1) * bp);
    assert bp * (ar * UNIT) == UNIT * (ar * bp) && ap * (br * UNIT) == UNIT * (br * ap);
    if x >= y + 1 {
      Below(ap, y + 1, x);
      Below(bp, (y + 1) * ap, ar * UNIT);
      Strictly(ap, br * UNIT, (y + 1) * bp);
    }
  }

  lemma Strictly(p: nat, x: nat, y: nat)
    requires p > 0 && x < y
    ensures p * x < p * y
  {
  }

  /** While the shift does not wrap, the ratio is the share of the period, rounded down to a unit. */
  lemma RatioIsShare(b: Bandwidth)
    requires b.runtime * UNIT < WORD
    ensures Ratio(b) * b.period <= b.runtime * UNIT < (Ratio(b) + 1) * b.period
  {
    var n := b.runtime * UNIT;
    assert n % WORD == n;
    assert n == b.period * (n / b.period) + n % b.period;
  }

  // ----- the system

  /** The global limit that the two sysctl values set, in nanoseconds. */
  function GlobalOf(periodUs: Pos, runtimeUs: int): Bandwidth {
    Bandwidth(periodUs * NSEC_PER_USEC, if runtimeUs < 0 then RUNTIME_INF else runtimeUs * NSEC_PER_USEC)
  }

  /** Groups that must not be left without runtime; none while limits are off. */
  function HungryOf(runtimeUs: int, rtTasks: set<nat>): set<nat> {
    if runtimeUs >= 0 then rtTasks else {}
  }

  /** Under a limit, no tree with a group without limit is admissible. */
  lemma {:induction false} UnlimitedRefused(t: Tree, bw: map<nat, Bandwidth>, tg: nat, periodUs: Pos, runtimeUs: int)
    requires tg in Nodes(t) && tg in bw && bw[tg].runtime == RUNTIME_INF
    ensures 0 <= runtimeUs < periodUs && runtimeUs * NSEC_PER_USEC < RUNTIME_INF ==> !Admissible(t, bw, GlobalOf(periodUs, runtimeUs))
    decreases t, 1
  {
    if t.id == tg {
      UnlimitedNeedsUnlimited(bw[tg], periodUs, runtimeUs);
    } else {
      UnlimitedsRefused(t.kids, bw, tg, periodUs, runtimeUs);
    }
  }

  lemma {:induction false} UnlimitedsRefused(ts: seq<Tree>, bw: map<nat, Bandwidth>, tg: nat, periodUs: Pos, runtimeUs: int)
    requires tg in NodesOf(ts) && tg in bw && bw[tg].runtime == RUNTIME_INF
    ensures 0 <= runtimeUs < periodUs && runtimeUs * NSEC_PER_USEC < RUNTIME_INF ==> !AllAdmissible(ts, bw, GlobalOf(periodUs, runtimeUs))
    decreases ts, 0
  {
    if tg in Nodes(ts[0]) {
      UnlimitedRefused(ts[0], bw, tg, periodUs, runtimeUs);
    } else {
      UnlimitedsRefused(ts[1..], bw, tg, periodUs, runtimeUs);
    }
  }

  class RtSystem {
    var groups: map<nat, Group>
    var bw: map<nat, Bandwidth>
    var sysctlPeriod: nat                    // microseconds
    var sysctlRuntime: int                   // microseconds; negative: no limit
    var defBandwidth: Bandwidth              // what new groups take their period from
    const root: nat
    ghost var tree: Tree

    /** The groups make a tree, and each has a bandwidth. */
    ghost predicate Formed()
      reads this
    {
      && tree.id == root
      && Linked(groups, tree, None, None)
      && bw.Keys == groups.Keys == Nodes(tree)
    }

    ghost predicate Valid()
      reads this
    {
      Formed() && sysctlPeriod > 0 && Admissible(tree, bw, Global())
    }

    function Global(): Bandwidth
      requires sysctlPeriod > 0
      reads this
    {
      GlobalOf(sysctlPeriod, sysctlRuntime)
    }

    function Hungry(rtTasks: set<nat>): set<nat>
      reads this
    {
      HungryOf(sysctlRuntime, rtTasks)
    }

    constructor ()
      ensures Valid() && root == 0 && tree == Node(root, []) && bw == map[root := Global()] && groups.Keys == {root}
      ensures sysctlPeriod == 1000000 && sysctlRuntime == 950000 && defBandwidth == Bandwidth(1000000000, 950000000)
    {
      root := 0;
      sysctlPeriod, sysctlRuntime := 1000000, 950000;
      var b := Bandwidth(1000000 * NSEC_PER_USEC, 950000 * NSEC_PER_USEC);
      defBandwidth := b;
      bw := map[0 := b];
      groups := map[0 := Group(None, [], None)];
      tree := Node(0, []);
    }

    /** sched_create_group: a group nobody uses yet, below `parent`. */
    method CreateGroup(parent: nat, tg: nat)
      requires Formed() && parent in groups && tg !in groups
      modifies this
      ensures Formed() && (old(Valid()) ==> Valid())
      ensures sysctlPeriod == old(sysctlPeriod) && sysctlRuntime == old(sysctlRuntime) && defBandwidth == old(defBandwidth)
      ensures bw == old(bw)[tg := Bandwidth(old(defBandwidth).period, 0)]
      ensures tree == AddKid(old(tree), parent, tg)
      ensures forall n, runtimeUs ::
        (tree, bw) == AfterCall(old(tree), old(bw), Create(parent, tg, old(defBandwidth).period), n, runtimeUs)
    {
      AddKidNodes(tree, parent, tg);
      if sysctlPeriod > 0 && Admissible(tree, bw, Global()) {
        AddKidAdmissible(tree, bw, Global(), parent, tg, defBandwidth.period);
      }
      LinkInLinked(groups, tree, parent, tg, None, None);
      bw := bw[tg := Bandwidth(defBandwidth.period, 0)];
      groups := LinkIn(groups, parent, tg);
      tree := AddKid(tree, parent, tg);
    }

    method RtSchedulable(tg: Option<nat>, change: Bandwidth, rtTasks: set<nat>) returns (err: int)
      requires Formed() && sysctlPeriod > 0
      requires tg.Some? ==> tg.value in groups
      ensures var bw' := if tg.Some? then bw[tg.value := change] else bw;
        Explains(err, Admissible(tree, bw', Global()), Fed(tree, bw', Hungry(rtTasks)))
    {
      var c := Check(groups, bw, tg, change, Global(), Hungry(rtTasks));
      WalkDecides(c, tree, None, None, Outcome((), [], 0));
      var data, log;
      err, data, log := WalkTgTree(groups, root, Checker(c), Nop(), (), tree);
    }

    /** tg_set_bandwidth: the change is made exactly when it keeps the tree admissible and starves nobody. */
    method SetBandwidth(tg: nat, change: Bandwidth, rtTasks: set<nat>) returns (err: int)
      requires Formed() && sysctlPeriod > 0 && tg in groups
      modifies `bw
      ensures Formed() && (old(Valid()) || err == 0 ==> Valid())
      ensures var bw' := old(bw)[tg := change];
        Explains(err, Admissible(tree, bw', Global()), Fed(tree, bw', Hungry(rtTasks)))
      ensures bw == if err == 0 then old(bw)[tg := change] else old(bw)
      ensures (tree, bw) == AfterCall(tree, old(bw), Set(tg, change, rtTasks), Global(), sysctlRuntime)
    {
      err := RtSchedulable(Some(tg), change, rtTasks);
      if err != 0 {
        return;
      }
      bw := bw[tg := change];
    }

    /** sched_group_set_rt_runtime: in 64-bit nanoseconds, a negative value for no limit; the period is kept. */
    method SetRtRuntime(tg: nat, runtimeUs: int, rtTasks: set<nat>) returns (err: int)
      requires Valid() && tg in groups
      modifies `bw
      ensures Valid()
      ensures var bw' := old(bw)[tg := Bandwidth(old(bw)[tg].period, if runtimeUs < 0 then RUNTIME_INF else runtimeUs * NSEC_PER_USEC % WORD)];
        && Explains(err, Admissible(tree, bw', Global()), Fed(tree, bw', Hungry(rtTasks)))
        && bw == if err == 0 then bw' else old(bw)
      ensures runtimeUs < 0 && 0 <= sysctlRuntime < sysctlPeriod && sysctlRuntime * 1000 < 0xffff_ffff_ffff_ffff ==> err != 0 && bw == old(bw)
      ensures runtimeUs == 0 && sysctlRuntime >= 0 && tg in rtTasks ==> err != 0 && bw == old(bw)
      ensures err == EBUSY ==> sysctlRuntime >= 0 && exists id ::
        id in rtTasks && id in old(bw) && (if id == tg then runtimeUs * 1000 % WORD == 0 else old(bw)[id].runtime == 0)
    {
      FedIs(tree, bw[tg := Bandwidth(bw[tg].period, if runtimeUs < 0 then RUNTIME_INF else runtimeUs * NSEC_PER_USEC % WORD)], Hungry(rtTasks));
      UnlimitedRefused(tree, bw[tg := Bandwidth(bw[tg].period, RUNTIME_INF)], tg, sysctlPeriod, sysctlRuntime);
      var runtime := if runtimeUs < 0 then RUNTIME_INF else runtimeUs * NSEC_PER_USEC % WORD;
      err := SetBandwidth(tg, Bandwidth(bw[tg].period, runtime), rtTasks);
    }

    /** sched_group_set_rt_period: EINVAL for a period that is zero in 64-bit nanoseconds; the runtime is kept. */
    method SetRtPeriod(tg: nat, periodUs: int, rtTasks: set<nat>) returns (err: int)
      requires Valid() && tg in groups
      modifies `bw
      ensures Valid()
      ensures var p := periodUs * NSEC_PER_USEC % WORD;
        && (p == 0 ==> err == EINVAL && bw == old(bw))
        && (p > 0 ==>
              var bw' := old(bw)[tg := Bandwidth(p, old(bw)[tg].runtime)];
              && Explains(err, Admissible(tree, bw', Global()), Fed(tree, bw', Hungry(rtTasks)))
              && bw == if err == 0 then bw' else old(bw))
    {
      var period := periodUs * NSEC_PER_USEC % WORD;
      if period == 0 {
        return EINVAL;
      }
      err := SetBandwidth(tg, Bandwidth(period, bw[tg].runtime), rtTasks);
    }

    /** The first half of sched_rt_handler: the new values are there before anybody has looked at them. */
    method WriteGlobals(periodUs: nat, runtimeUs: int)
      modifies `sysctlPeriod, `sysctlRuntime
      ensures sysctlPeriod == periodUs && sysctlRuntime == runtimeUs
    {
      sysctlPeriod, sysctlRuntime := periodUs, runtimeUs;
    }

    /** The second half: the values there now take effect if every group fits them, or the old ones are put back. */
    method CheckGlobals(oldPeriod: nat, oldRuntime: int, rtTasks: set<nat>) returns (err: int)
      requires Formed()
      modifies `sysctlPeriod, `sysctlRuntime, `defBandwidth
      ensures Formed() && (err == 0 ==> Valid())
      ensures err == 0 <==>
        (&& old(sysctlPeriod) > 0
         && Fits(GlobalOf(old(sysctlPeriod), old(sysctlRuntime)))
         && Admissible(tree, bw, GlobalOf(old(sysctlPeriod), old(sysctlRuntime)))
         && Fed(tree, bw, HungryOf(old(sysctlRuntime), rtTasks)))
      ensures err == 0 ==> (sysctlPeriod, sysctlRuntime) == old((sysctlPeriod, sysctlRuntime)) && defBandwidth == GlobalOf(sysctlPeriod, sysctlRuntime)
      ensures err != 0 ==> (sysctlPeriod, sysctlRuntime, defBandwidth) == (oldPeriod, oldRuntime, old(defBandwidth))
    {
      if sysctlPeriod <= 0 {
        err := EINVAL;
      } else if Global().runtime > Global().period && Global().runtime != RUNTIME_INF {
        err := EINVAL;
      } else {
        err := RtSchedulable(None, defBandwidth, rtTasks);
      }
      if err != 0 {
        sysctlPeriod, sysctlRuntime := oldPeriod, oldRuntime;
      } else {
        defBandwidth := Global();
      }
    }

    /** A write to the global settings takes effect only if every group still fits; otherwise both are put back. */
    method SchedRtHandler(periodUs: nat, runtimeUs: int, rtTasks: set<nat>) returns (err: int)
      requires Valid()
      modifies `sysctlPeriod, `sysctlRuntime, `defBandwidth
      ensures Valid()
      ensures err == 0 <==>
        (&& periodUs > 0
         && Fits(GlobalOf(periodUs, runtimeUs))
         && Admissible(tree, bw, GlobalOf(periodUs, runtimeUs))
         && Fed(tree, bw, HungryOf(runtimeUs, rtTasks)))
      ensures err == 0 ==> (sysctlPeriod, sysctlRuntime, defBandwidth) == (periodUs, runtimeUs, GlobalOf(periodUs, runtimeUs))
      ensures err != 0 ==> (sysctlPeriod, sysctlRuntime, defBandwidth) == old((sysctlPeriod, sysctlRuntime, defBandwidth))
    {
      var oldPeriod, oldRuntime := sysctlPeriod, sysctlRuntime;
      WriteGlobals(periodUs, runtimeUs);
      err := CheckGlobals(oldPeriod, oldRuntime, rtTasks);
    }

    /**
      A group's bandwidth changes between the two halves. Some group is left above the limit exactly when the change
      is one of the root group that the new limit lets pass and the old one would not, and the new runtime exceeds the
      new period, so that the handler puts the old values back.
     */
    method HandlerOvertaken(periodUs: Pos, runtimeUs: int, tg: nat, change: Bandwidth, rtTasks: set<nat>) returns (err: int, changed: int)
      requires Valid() && tg in groups
      modifies this
      ensures Formed() && tree == old(tree) && sysctlPeriod > 0
      ensures var n, bw' := GlobalOf(periodUs, runtimeUs), old(bw)[tg := change];
        !Valid() <==>
          && tg == root && Ratio(change) > Ratio(old(Global())) && !Fits(n)
          && Admissible(tree, bw', n) && Fed(tree, bw', HungryOf(runtimeUs, rtTasks))
    {
      var oldPeriod, oldRuntime := sysctlPeriod, sysctlRuntime;
      ghost var n, bw' := GlobalOf(periodUs, runtimeUs), bw[tg := change];
      LimitAtRoot(tree, bw, Global());
      LimitAtRoot(tree, bw', Global());
      LimitAtRoot(tree, bw', n);
      WriteGlobals(periodUs, runtimeUs);
      changed := SetBandwidth(tg, change, rtTasks);
      err := CheckGlobals(oldPeriod, oldRuntime, rtTasks);
    }

    /** At any time, groups none of which is an ancestor of another share at most the global ratio. */
    lemma GroupsWithinGlobal(s: set<nat>)
      requires Valid() && Antichain(tree, s)
      ensures Total(tree, s, bw) <= Ratio(Global())
    {
      AntichainBounded(tree, s, bw, Global());
    }
  }

  /** Writing a runtime of two seconds in one while the root group is given all of its period leaves the root above the limit. */
  method LimitBroken() returns (s: RtSystem)
    ensures fresh(s) && s.Formed() && s.sysctlPeriod > 0 && 0 in s.bw && Ratio(s.bw[0]) > Ratio(s.Global())
  {
    s := new RtSystem();
    var all := Bandwidth(1000000000, 1000000000);
    assert Ratio(all) == UNIT && Ratio(GlobalOf(1000000, 2000000)) == 2 * UNIT && Ratio(GlobalOf(1000000, 950000)) < UNIT;
    assert !Fits(GlobalOf(1000000, 2000000));
    s.WriteGlobals(1000000, 2000000);
    var changed := s.SetBandwidth(0, all, {});
    var err := s.CheckGlobals(1000000, 950000, {});
  }
}
