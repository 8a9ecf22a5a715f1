/**
  The walk over the tree of task groups. The C code has no recursion and no
  stack: it follows child, sibling and parent links with two jump targets. It
  is proved to make the callbacks of the recursive depth-first traversal.
 */
module TaskGroups {
  import opened Counting

  /** The tree the links represent. */
  datatype Tree = Node(id: nat, kids: seq<Tree>)

  /** A task group's links: `parent`, the list `children`, and `next` in its parent's list. */
  datatype Group = Group(parent: Option<nat>, children: seq<nat>, next: Option<nat>)

  function Ids(ts: seq<Tree>): (ids: seq<nat>)
    ensures |ids| == |ts|
    ensures forall i :: 0 <= i < |ts| ==> ids[i] == ts[i].id
  {
    seq(|ts|, i requires 0 <= i < |ts| => ts[i].id)
  }

  function IdAt(ts: seq<Tree>, i: nat): Option<nat> {
    if i < |ts| then Some(ts[i].id) else None
  }

  ghost predicate Linked(h: map<nat, Group>, t: Tree, parent: Option<nat>, next: Option<nat>)
    decreases t, 1
  {
    && t.id in h
    && h[t.id] == Group(parent, Ids(t.kids), next)
    && forall i {:trigger KidLinked(h, t, i)} :: 0 <= i < |t.kids| ==> KidLinked(h, t, i)
  }

  ghost predicate KidLinked(h: map<nat, Group>, t: Tree, i: nat)
    requires i < |t.kids|
    decreases t, 0
  {
    Linked(h, t.kids[i], Some(t.id), IdAt(t.kids, i + 1))
  }

  // ----- the recursive traversal

  datatype Event = Down(id: nat) | Up(id: nat)

  /** A callback: from the group and the caller's data to the data it leaves and its result. */
  type Visitor<!D> = (nat, D) -> (D, int)

  /** The data, the callbacks made so far, and the last result. */
  datatype Outcome<D> = Outcome(data: D, log: seq<Event>, ret: int)

  function Call<D>(v: Visitor<D>, e: Event, o: Outcome<D>): Outcome<D> {
    var (data, ret) := v(e.id, o.data);
    Outcome(data, o.log + [e], ret)
  }

  function Dfs<D>(t: Tree, down: Visitor<D>, up: Visitor<D>, o: Outcome<D>): Outcome<D>
    decreases t, 1
  {
    var o1 := Call(down, Down(t.id), o);
    if o1.ret != 0 then o1 else Finish(t, 0, down, up, o1)
  }

  /** The children from the `i`-th on, then the group's own up callback. */
  function Finish<D>(t: Tree, i: nat, down: Visitor<D>, up: Visitor<D>, o: Outcome<D>): Outcome<D>
    requires i <= |t.kids|
    decreases t, 0, |t.kids| - i
  {
    if i == |t.kids| then Call(up, Up(t.id), o)
    else
      var o1 := Dfs(t.kids[i], down, up, o);
      if o1.ret != 0 then o1 else Finish(t, i + 1, down, up, o1)
  }

  /** Every callback, when none fails. */
  function Tour(t: Tree): seq<Event>
    decreases t, 1
  {
    [Down(t.id)] + TourFrom(t, 0)
  }

  function TourFrom(t: Tree, i: nat): seq<Event>
    requires i <= |t.kids|
    decreases t, 0, |t.kids| - i
  {
    if i == |t.kids| then [Up(t.id)] else Tour(t.kids[i]) + TourFrom(t, i + 1)
  }

  /** The callbacks of `evs`, one after the other, each given the data the one before has left: the last data and result. */
  function Made<D>(evs: seq<Event>, down: Visitor<D>, up: Visitor<D>, data: D): (D, int) {
    if evs == [] then (data, 0)
    else
      var d := Made(evs[..|evs| - 1], down, up, data).0;
      match evs[|evs| - 1]
      case Down(id) => down(id, d)
      case Up(id) => up(id, d)
  }

  lemma {:induction false} MadeThen<D>(xs: seq<Event>, ys: seq<Event>, down: Visitor<D>, up: Visitor<D>, data: D)
    requires ys != []
    ensures Made(xs + ys, down, up, data) == Made(ys, down, up, Made(xs, down, up, data).0)
  {
    var init := ys[..|ys| - 1];
    assert (xs + ys)[..|xs + ys| - 1] == xs + init;
    if init == [] {
      assert xs + init == xs;
    } else {
      MadeThen(xs, init, down, up, data);
    }
  }

  /** `o'` is what the first `n` callbacks of `evs` leave after `o`, the last of them the first to fail if any does. */
  ghost predicate Cut<D>(evs: seq<Event>, n: nat, down: Visitor<D>, up: Visitor<D>, o: Outcome<D>, o': Outcome<D>) {
    && 0 < n <= |evs|
    && o'.log == o.log + evs[..n]
    && (o'.data, o'.ret) == Made(evs[..n], down, up, o.data)
    && (forall m :: 0 < m < n ==> Made(evs[..m], down, up, o.data).1 == 0)
    && (o'.ret == 0 ==> n == |evs|)
  }

  lemma CutOne<D>(e: Event, v: Visitor<D>, down: Visitor<D>, up: Visitor<D>, o: Outcome<D>)
    requires v == if e.Down? then down else up
    ensures Cut([e], 1, down, up, o, Call(v, e, o))
  {
    assert [e][..1] == [e] && [e][..0] == [];
    assert Made([], down, up, o.data) == (o.data, 0);
  }

  /** All of `xs` without a failure, and then a part of `ys`. */
  lemma CutThen<D>(xs: seq<Event>, ys: seq<Event>, n: nat, down: Visitor<D>, up: Visitor<D>, o: Outcome<D>, o1: Outcome<D>, o2: Outcome<D>)
    requires Cut(xs, |xs|, down, up, o, o1) && o1.ret == 0 && Cut(ys, n, down, up, o1, o2)
    ensures Cut(xs + ys, |xs| + n, down, up, o, o2)
  {
    var zs := xs + ys;
    assert xs[..|xs|] == xs && zs[..|xs| + n] == xs + ys[..n];
    MadeThen(xs, ys[..n], down, up, o.data);
    forall m | 0 < m < |xs| + n
      ensures Made(zs[..m], down, up, o.data).1 == 0
    {
      if m <= |xs| {
        assert zs[..m] == xs[..m];
      } else {
        assert zs[..m] == xs + ys[..m - |xs|];
        MadeThen(xs, ys[..m - |xs|], down, up, o.data);
      }
    }
  }

  lemma CutShort<D>(xs: seq<Event>, ys: seq<Event>, n: nat, down: Visitor<D>, up: Visitor<D>, o: Outcome<D>, o1: Outcome<D>)
    requires Cut(xs, n, down, up, o, o1) && o1.ret != 0
    ensures Cut(xs + ys, n, down, up, o, o1)
  {
    assert forall m :: 0 <= m <= n ==> (xs + ys)[..m] == xs[..m];
  }

  /**
    The traversal makes the callbacks of the tour in order, each with the data the one before has left, up to the first
    that returns non-zero, and returns that; all of them when none does.
   */
  lemma {:induction false} DfsFollowsTour<D>(t: Tree, down: Visitor<D>, up: Visitor<D>, o: Outcome<D>) returns (n: nat)
    ensures Cut(Tour(t), n, down, up, o, Dfs(t, down, up, o))
    decreases t, 1
  {
    var o1 := Call(down, Down(t.id), o);
    CutOne(Down(t.id), down, down, up, o);
    if o1.ret != 0 {
      CutShort([Down(t.id)], TourFrom(t, 0), 1, down, up, o, o1);
      n := 1;
    } else {
      var k := FinishFollowsTour(t, 0, down, up, o1);
      CutThen([Down(t.id)], TourFrom(t, 0), k, down, up, o, o1, Finish(t, 0, down, up, o1));
      n := k + 1;
    }
  }

  lemma {:induction false} FinishFollowsTour<D>(t: Tree, i: nat, down: Visitor<D>, up: Visitor<D>, o: Outcome<D>) returns (n: nat)
    requires i <= |t.kids|
    ensures Cut(TourFrom(t, i), n, down, up, o, Finish(t, i, down, up, o))
    decreases t, 0, |t.kids| - i
  {
    if i == |t.kids| {
      CutOne(Up(t.id), up, down, up, o);
      n := 1;
    } else {
      n := DfsFollowsTour(t.kids[i], down, up, o);
      var o1 := Dfs(t.kids[i], down, up, o);
      if o1.ret != 0 {
        CutShort(Tour(t.kids[i]), TourFrom(t, i + 1), n, down, up, o, o1);
      } else {
        var k := FinishFollowsTour(t, i + 1, down, up, o1);
        CutThen(Tour(t.kids[i]), TourFrom(t, i + 1), k, down, up, o, o1, Finish(t, i + 1, down, up, o1));
        n := n + k;
      }
    }
  }

  // ----- where the walk stands

  /** Inside the `i`-th child of `t`. */
  datatype Frame = Frame(t: Tree, i: nat)

  ghost predicate Path(h: map<nat, Group>, stack: seq<Frame>, t: Tree, root: Tree)
    decreases |stack|
  {
    if stack == [] then t == root && Linked(h, t, None, None)
    else
      var f := stack[|stack| - 1];
      f.i < |f.t.kids| && t == f.t.kids[f.i] && Path(h, stack[..|stack| - 1], f.t, root)
  }

  ghost function ParentOf(stack: seq<Frame>): Option<nat> {
    if stack == [] then None else Some(stack[|stack| - 1].t.id)
  }

  ghost function NextOf(stack: seq<Frame>): Option<nat> {
    if stack == [] then None else IdAt(stack[|stack| - 1].t.kids, stack[|stack| - 1].i + 1)
  }

  lemma {:induction false} PathLinked(h: map<nat, Group>, stack: seq<Frame>, t: Tree, root: Tree)
    requires Path(h, stack, t, root)
    ensures Linked(h, t, ParentOf(stack), NextOf(stack))
    decreases |stack|
  {
    if stack != [] {
      var f := stack[|stack| - 1];
      PathLinked(h, stack[..|stack| - 1], f.t, root);
      assert KidLinked(h, f.t, f.i);
    }
  }

  /** What is left to do once the current subtree is done with outcome `o`. */
  ghost function Resume<D>(stack: seq<Frame>, down: Visitor<D>, up: Visitor<D>, o: Outcome<D>): Outcome<D>
    decreases |stack|
  {
    if o.ret != 0 || stack == [] || stack[|stack| - 1].i >= |stack[|stack| - 1].t.kids| then o
    else
      var f := stack[|stack| - 1];
      Resume(stack[..|stack| - 1], down, up, Finish(f.t, f.i + 1, down, up, o))
  }

  /** Callbacks still to come if none fails. */
  ghost function Weight(t: Tree): nat
    decreases t, 1
  {
    1 + Left(t, 0)
  }

  ghost function Left(t: Tree, i: nat): nat
    requires i <= |t.kids|
    decreases t, 0, |t.kids| - i
  {
    if i == |t.kids| then 1 else Weight(t.kids[i]) + Left(t, i + 1)
  }

  ghost function Pending(stack: seq<Frame>): nat
    decreases |stack|
  {
    if stack == [] || stack[|stack| - 1].i >= |stack[|stack| - 1].t.kids| then 0
    else
      var f := stack[|stack| - 1];
      Left(f.t, f.i + 1) + Pending(stack[..|stack| - 1])
  }

  // ----- the walk

  method WalkTgTree<D>(h: map<nat, Group>, rootGroup: nat, down: Visitor<D>, up: Visitor<D>, data: D, ghost root: Tree)
    returns (ret: int, final: D, log: seq<Event>)
    requires root.id == rootGroup && Linked(h, root, None, None)
    ensures Outcome(final, log, ret) == Dfs(root, down, up, Outcome(data, [], 0))
  {
    var parent := rootGroup;
    var child: Option<nat> := None;
    var entering := true;
    final, log, ret := data, [], 0;
    ghost var stack: seq<Frame>, t: Tree, i: nat := [], root, 0;
    ghost var goal := Dfs(root, down, up, Outcome(data, [], 0));
    while true
      invariant Path(h, stack, t, root) && parent == t.id && i <= |t.kids|
      invariant !entering ==> child == IdAt(t.kids, i)
      invariant entering ==> i == 0 && goal == Resume(stack, down, up, Dfs(t, down, up, Outcome(final, log, ret)))
      invariant !entering ==> goal == Resume(stack, down, up, Finish(t, i, down, up, Outcome(final, log, ret)))
      decreases Pending(stack) + (if entering then Weight(t) else Left(t, i)), !entering
    {
      PathLinked(h, stack, t, root);
      if entering {
        var (d, r) := down(parent, final);
        final, ret, log := d, r, log + [Down(parent)];
        if ret != 0 {
          return;
        }
        var list := h[parent].children;
        child := if list == [] then None else Some(list[0]);
        entering := false;
      } else if child.Some? {
        parent := child.value;
        entering := true;
        stack, t, i := stack + [Frame(t, i)], t.kids[i], 0;
      } else {
        var (d, r) := up(parent, final);
        final, ret, log := d, r, log + [Up(parent)];
        if ret != 0 {
          return;
        }
        child := Some(parent);
        if h[parent].parent == None {
          return;
        }
        parent := h[parent].parent.value;
        child := h[child.value].next;
        var f := stack[|stack| - 1];
        stack, t, i := stack[..|stack| - 1], f.t, f.i + 1;
      }
    }
  }
}
