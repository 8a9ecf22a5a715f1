/**
  Building the circular list of the CPU groups of a scheduling domain. The group
  function is given by its two results: the number of a CPU's group, and the
  group's object.
 */
module SchedGroups {

  class SchedGroup {
    var cpumask: set<nat>
    var cpuPower: nat
    var next: SchedGroup?

    constructor ()
      ensures cpumask == {} && cpuPower == 0 && next == null
    {
      cpumask, cpuPower, next := {}, 0, null;
    }
  }

  type Groups = map<nat, int>
  type Objects = map<nat, SchedGroup>

  ghost predicate Defined(span: seq<nat>, groupOf: Groups, sgOf: Objects) {
    forall i :: i in span ==> i in groupOf && i in sgOf
  }

  /** One object for each group. */
  ghost predicate OneObjectEach(span: seq<nat>, groupOf: Groups, sgOf: Objects)
    requires Defined(span, groupOf, sgOf)
  {
    forall i, j :: i in span && j in span ==> (sgOf[i] == sgOf[j] <==> groupOf[i] == groupOf[j])
  }

  /** The CPUs of the span that belong to group `g`. */
  function Class(span: seq<nat>, groupOf: Groups, g: int): set<nat> {
    set j | j in span && j in groupOf && groupOf[j] == g
  }

  /** The groups of the leaders, one for each group, are linked one after the other, each with exactly its CPUs. */
  ghost predicate Chain(span: seq<nat>, groupOf: Groups, sgOf: Objects, leaders: seq<nat>)
    requires Defined(span, groupOf, sgOf) && forall x :: x in leaders ==> x in span
    reads set i | i in leaders :: sgOf[i]
  {
    && (forall k, l :: 0 <= k < l < |leaders| ==> groupOf[leaders[k]] != groupOf[leaders[l]])
    && (forall k :: 0 <= k < |leaders| ==>
          sgOf[leaders[k]].cpumask == Class(span, groupOf, groupOf[leaders[k]]) && sgOf[leaders[k]].cpuPower == 0)
    && (forall k, l :: 0 <= k < l < |leaders| && l == k + 1 ==> sgOf[leaders[k]].next == sgOf[leaders[l]])
  }

  /** The inner loop: the CPUs of the span in `group` are covered and go to `sg`. */
  method Fill(span: seq<nat>, groupOf: Groups, sg: SchedGroup, group: int, before: set<nat>) returns (covered: set<nat>)
    requires forall i :: i in span ==> i in groupOf
    modifies sg
    ensures sg.cpumask == Class(span, groupOf, group) && sg.cpuPower == 0 && sg.next == old(sg.next)
    ensures covered == before + Class(span, groupOf, group)
  {
    sg.cpumask := {};
    sg.cpuPower := 0;
    covered := before;
    var m := 0;
    while m < |span|
      invariant 0 <= m <= |span| && sg.cpuPower == 0 && sg.next == old(sg.next)
      invariant sg.cpumask == Class(span[..m], groupOf, group)
      invariant covered == before + sg.cpumask
    {
      var j := span[m];
      assert span[..m + 1] == span[..m] + [j];
      if groupOf[j] == group {
        covered := covered + {j};
        sg.cpumask := sg.cpumask + {j};
      }
      m := m + 1;
    }
    assert span[..m] == span;
  }

  /** Links a filled group after the last one, if there is one. */
  method Append(span: seq<nat>, groupOf: Groups, sgOf: Objects, ghost leaders: seq<nat>, last: SchedGroup?, i: nat)
    requires Defined(span, groupOf, sgOf) && i in span && forall x :: x in leaders ==> x in span
    requires Chain(span, groupOf, sgOf, leaders)
    requires forall k :: 0 <= k < |leaders| ==> groupOf[leaders[k]] != groupOf[i]
    requires forall k, l :: 0 <= k < l < |leaders| ==> sgOf[leaders[k]] != sgOf[leaders[l]]
    requires forall k :: 0 <= k < |leaders| ==> sgOf[leaders[k]] != sgOf[i]
    requires sgOf[i].cpumask == Class(span, groupOf, groupOf[i]) && sgOf[i].cpuPower == 0
    requires if leaders == [] then last == null else last == sgOf[leaders[|leaders| - 1]]
    modifies if last != null then {last} else {}
    ensures Chain(span, groupOf, sgOf, leaders + [i])
  {
    if last != null {
      last.next := sgOf[i];
    }
  }

  /** The numbers of the groups that have a leader. */
  function Led(groupOf: Groups, leaders: seq<nat>): set<int> {
    set x | x in leaders && x in groupOf :: groupOf[x]
  }

  /** The list under construction. */
  ghost predicate Building(span: seq<nat>, groupOf: Groups, sgOf: Objects, leaders: seq<nat>, covered: set<nat>,
                           first: SchedGroup?, last: SchedGroup?)
    requires Defined(span, groupOf, sgOf)
    reads set i | i in leaders && i in sgOf :: sgOf[i]
  {
    && (forall x :: x in leaders ==> x in span)
    && (forall j :: j in covered <==> j in span && groupOf[j] in Led(groupOf, leaders))
    && (if leaders == [] then first == null && last == null
        else first == sgOf[leaders[0]] && last == sgOf[leaders[|leaders| - 1]])
    && Chain(span, groupOf, sgOf, leaders)
  }

  /** Once the whole span is covered, every CPU's group has a leader. */
  lemma EveryoneLed(span: seq<nat>, groupOf: Groups, sgOf: Objects, leaders: seq<nat>, covered: set<nat>)
    requires Defined(span, groupOf, sgOf)
    requires forall j :: j in covered <==> j in span && groupOf[j] in Led(groupOf, leaders)
    requires (forall j :: j in span ==> j in covered) && forall x :: x in leaders ==> x in span
    ensures forall j :: j in span ==> exists x :: x in leaders && groupOf[x] == groupOf[j]
  {
    forall j | j in span
      ensures exists x :: x in leaders && groupOf[x] == groupOf[j]
    {
      assert j in covered && groupOf[j] in Led(groupOf, leaders);
    }
  }

  /** The body of the outer loop, for a CPU whose group is not there yet. */
  method AddGroup(span: seq<nat>, groupOf: Groups, sgOf: Objects, ghost leaders: seq<nat>,
                  covered: set<nat>, first: SchedGroup?, last: SchedGroup?, i: nat)
    returns (covered': set<nat>, first': SchedGroup?)
    requires Defined(span, groupOf, sgOf) && OneObjectEach(span, groupOf, sgOf)
    requires Building(span, groupOf, sgOf, leaders, covered, first, last) && i in span && i !in covered
    modifies set x | x in span :: sgOf[x]
    ensures Building(span, groupOf, sgOf, leaders + [i], covered', first', sgOf[i])
    ensures covered <= covered' && i in covered'
  {
    var sg := sgOf[i];
    forall k | 0 <= k < |leaders|
      ensures groupOf[leaders[k]] != groupOf[i] && sgOf[leaders[k]] != sg
    {
      assert leaders[k] in leaders && groupOf[leaders[k]] in Led(groupOf, leaders);
    }
    covered' := Fill(span, groupOf, sg, groupOf[i], covered);
    assert Chain(span, groupOf, sgOf, leaders);
    first' := if first == null then sg else first;
    Append(span, groupOf, sgOf, leaders, last, i);
    assert Led(groupOf, leaders + [i]) == Led(groupOf, leaders) + {groupOf[i]};
  }

  /** The last group is linked back to the first. */
  method Close(span: seq<nat>, groupOf: Groups, sgOf: Objects, ghost leaders: seq<nat>, first: SchedGroup?, last: SchedGroup?)
    requires Defined(span, groupOf, sgOf) && OneObjectEach(span, groupOf, sgOf)
    requires leaders != [] && (forall x :: x in leaders ==> x in span) && Chain(span, groupOf, sgOf, leaders)
    requires first == sgOf[leaders[0]] && last == sgOf[leaders[|leaders| - 1]]
    modifies last
    ensures Chain(span, groupOf, sgOf, leaders)
    ensures sgOf[leaders[|leaders| - 1]].next == sgOf[leaders[0]]
  {
    assert forall k :: 0 <= k < |leaders| ==> leaders[k] in span;
    last.next := first;
  }

  /** The outer loop: one group after the other until the span is covered. */
  method CoverSpan(span: seq<nat>, groupOf: Groups, sgOf: Objects)
    returns (ghost leaders: seq<nat>, ghost covered: set<nat>, first: SchedGroup?, last: SchedGroup?)
    requires span != [] && Defined(span, groupOf, sgOf) && OneObjectEach(span, groupOf, sgOf)
    modifies set i | i in span :: sgOf[i]
    ensures leaders != [] && Building(span, groupOf, sgOf, leaders, covered, first, last)
    ensures forall j :: j in span ==> j in covered
  {
    first, last := null, null;
    var done: set<nat> := {};
    leaders, covered := [], {};
    var n := 0;
    while n < |span|
      invariant 0 <= n <= |span| && covered == done && (n > 0 ==> leaders != [])
      invariant forall k :: 0 <= k < n ==> span[k] in done
      invariant Building(span, groupOf, sgOf, leaders, covered, first, last)
    {
      var i := span[n];
      if i !in done {
        done, first := AddGroup(span, groupOf, sgOf, leaders, done, first, last, i);
        last := sgOf[i];
        leaders, covered := leaders + [i], done;
      }
      n := n + 1;
    }
  }

  /**
    `span` lists the CPUs in the order of for_each_cpu. The leaders are the CPUs that come first
    in their group; their groups form one circle that covers the span.
   */
  method InitSchedBuildGroups(span: seq<nat>, groupOf: Groups, sgOf: Objects) returns (ghost leaders: seq<nat>)
    requires span != [] && Defined(span, groupOf, sgOf) && OneObjectEach(span, groupOf, sgOf)
    modifies set i | i in span :: sgOf[i]
    ensures leaders != [] && forall x :: x in leaders ==> x in span
    ensures forall j :: j in span ==> exists x :: x in leaders && groupOf[x] == groupOf[j]
    ensures Chain(span, groupOf, sgOf, leaders)
    ensures sgOf[leaders[|leaders| - 1]].next == sgOf[leaders[0]]
  {
    var first: SchedGroup?, last: SchedGroup?;
    ghost var covered;
    leaders, covered, first, last := CoverSpan(span, groupOf, sgOf);
    EveryoneLed(span, groupOf, sgOf, leaders, covered);
    Close(span, groupOf, sgOf, leaders, first, last);
  }
}
