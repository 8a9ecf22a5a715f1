/**
  The kifs registry: ten slots on a list of used ones and a list of free ones,
  as a finite map from names, cut to fifty characters, to callbacks.
 */
module Kifs {
  import opened Counting

  const MAX_KIFS_ENTRY: nat := 10
  const NAME_SIZE: nat := 50
  const ENOSPC := -28
  const ENOMEM := -12
  const EINVAL := -22
  const EPERM := -1

  /** A function registered by a module, or NULL. */
  type Callback = Option<nat>

  datatype Ops = Ops(read: Callback, write: Callback, data: nat)
  datatype Entry = Entry(name: string, ops: Ops)

  /** What `strncpy` keeps of a name and `strncmp` looks at. */
  function Cut(name: string): (c: string)
    ensures |c| <= NAME_SIZE && (|name| <= NAME_SIZE ==> c == name)
  {
    if |name| <= NAME_SIZE then name else name[..NAME_SIZE]
  }

  // ----- lists of slots

  /** The two lists together hold every slot once. */
  ghost predicate Partition(used: seq<nat>, free: seq<nat>) {
    && Distinct(used + free)
    && |used| + |free| == MAX_KIFS_ENTRY
    && forall i :: 0 <= i < |used + free| ==> (used + free)[i] < MAX_KIFS_ENTRY
  }

  lemma InRange(used: seq<nat>, free: seq<nat>)
    requires Partition(used, free)
    ensures forall x :: x in used || x in free ==> x < MAX_KIFS_ENTRY
    ensures forall i :: 0 <= i < |used| ==> used[i] < MAX_KIFS_ENTRY
  {
    var all := used + free;
    assert forall i :: 0 <= i < |used| ==> all[i] == used[i];
    assert forall i :: 0 <= i < |free| ==> all[|used| + i] == free[i];
  }

  /** list_move of the first of `free` to the front of `used`. */
  lemma MoveKeepsPartition(used: seq<nat>, free: seq<nat>)
    requires Partition(used, free) && free != []
    ensures Partition([free[0]] + used, free[1..])
  {
    var a, b := used + free, [free[0]] + used + free[1..];
    assert forall i :: 0 <= i < |b| ==> b[i] == a[if i == 0 then |used| else if i <= |used| then i - 1 else i];
  }

  /** list_del of the `k`-th of `used` and list_add to `free`. */
  lemma DropKeepsPartition(used: seq<nat>, free: seq<nat>, k: nat)
    requires Partition(used, free) && k < |used|
    ensures Partition(used[..k] + used[k + 1..], [used[k]] + free)
  {
    var a, b := used + free, used[..k] + used[k + 1..] + ([used[k]] + free);
    assert forall i :: 0 <= i < |b| ==>
      b[i] == a[if i < k then i else if i < |used| - 1 then i + 1 else if i == |used| - 1 then k else i];
  }

  // ----- the map

  /** The entries on the list, in order. */
  function Listed(slots: seq<Entry>, used: seq<nat>): (es: seq<Entry>)
    ensures |es| == |used|
    ensures forall i :: 0 <= i < |used| && used[i] < |slots| ==> es[i] == slots[used[i]]
  {
    seq(|used|, i requires 0 <= i < |used| => if used[i] < |slots| then slots[used[i]] else Entry("", Ops(None, None, 0)))
  }

  /** Names, with what is registered under them; the first of two equal names would win. */
  function Registered(es: seq<Entry>): map<string, Ops> {
    if es == [] then map[] else Registered(es[1..])[es[0].name := es[0].ops]
  }

  ghost predicate NamesDistinct(es: seq<Entry>) {
    && (forall i :: 0 <= i < |es| ==> |es[i].name| <= NAME_SIZE)
    && (forall i, j :: 0 <= i < j < |es| ==> es[i].name != es[j].name)
  }

  lemma {:induction false} RegisteredIs(es: seq<Entry>)
    requires NamesDistinct(es)
    ensures forall i :: 0 <= i < |es| ==> es[i].name in Registered(es) && Registered(es)[es[i].name] == es[i].ops
    ensures forall n :: n in Registered(es) ==> exists i :: 0 <= i < |es| && es[i].name == n
  {
    if es != [] {
      RegisteredIs(es[1..]);
      forall n | n in Registered(es)
        ensures exists i :: 0 <= i < |es| && es[i].name == n
      {
        if n != es[0].name {
          var i :| 0 <= i < |es[1..]| && es[1..][i].name == n;
          assert es[i + 1].name == n;
        }
      }
    }
  }

  lemma DropDistinct(es: seq<Entry>, k: nat)
    requires NamesDistinct(es) && k < |es|
    ensures NamesDistinct(es[..k] + es[k + 1..])
  {
    var rest := es[..k] + es[k + 1..];
    assert forall j :: 0 <= j < |rest| ==> rest[j] == es[if j < k then j else j + 1];
  }

  lemma FirstNotInRest(es: seq<Entry>)
    requires NamesDistinct(es) && es != []
    ensures es[0].name !in Registered(es[1..])
  {
    RegisteredIs(es[1..]);
    forall i | 0 <= i < |es[1..]|
      ensures es[1..][i].name != es[0].name
    {
      assert es[1..][i] == es[i + 1];
    }
  }

  lemma RestDistinct(es: seq<Entry>)
    requires NamesDistinct(es) && es != []
    ensures NamesDistinct(es[1..])
  {
    assert forall i :: 0 <= i < |es[1..]| ==> es[1..][i] == es[i + 1];
  }

  lemma RegisteredCons(e: Entry, es: seq<Entry>)
    ensures Registered([e] + es) == Registered(es)[e.name := e.ops]
  {
    assert ([e] + es)[1..] == es;
  }

  /** Dropping an entry from the list drops its name from the map. */
  lemma {:induction false} RegisteredDrop(es: seq<Entry>, k: nat)
    requires NamesDistinct(es) && k < |es|
    ensures Registered(es[..k] + es[k + 1..]) == Registered(es) - {es[k].name}
  {
    if k == 0 {
      FirstNotInRest(es);
      assert es[..k] + es[k + 1..] == es[1..];
    } else {
      var rest := es[1..];
      RestDistinct(es);
      RegisteredDrop(rest, k - 1);
      RegisteredCons(es[0], rest[..k - 1] + rest[k..]);
      assert es[..k] + es[k + 1..] == [es[0]] + (rest[..k - 1] + rest[k..]);
      assert es[0].name != es[k].name;
    }
  }

  /** Writing the first free slot and moving it to the list puts its entry in front. */
  lemma ListedAdd(slots: seq<Entry>, used: seq<nat>, free: seq<nat>, e: Entry)
    requires |slots| == MAX_KIFS_ENTRY && Partition(used, free) && free != []
    ensures free[0] < |slots| && Listed(slots[free[0] := e], [free[0]] + used) == [e] + Listed(slots, used)
  {
    var all := used + free;
    assert all[|used|] == free[0] && forall i :: 0 <= i < |used| ==> used[i] == all[i];
  }

  lemma RegisteredAdd(es: seq<Entry>, e: Entry)
    requires NamesDistinct(es) && |e.name| <= NAME_SIZE && e.name !in Registered(es)
    ensures NamesDistinct([e] + es) && Registered([e] + es) == Registered(es)[e.name := e.ops]
  {
    RegisteredIs(es);
    assert ([e] + es)[1..] == es;
  }

  /** The names of the entries, a line each. */
  function Lines(es: seq<Entry>): string {
    if es == [] then "" else Lines(es[..|es| - 1]) + es[|es| - 1].name + "\n"
  }

  lemma LinesNext(es: seq<Entry>, i: nat)
    requires i < |es|
    ensures Lines(es[..i + 1]) == Lines(es[..i]) + es[i].name + "\n"
  {
    assert es[..i + 1][..i] == es[..i];
  }

  lemma {:induction false} LinesGrow(es: seq<Entry>, m: nat, n: nat)
    requires m <= n <= |es|
    ensures |Lines(es[..m])| <= |Lines(es[..n])|
    decreases n
  {
    if m < n {
      LinesGrow(es, m, n - 1);
      assert es[..n][..n - 1] == es[..n - 1];
    }
  }

  lemma {:induction false} LinesShort(es: seq<Entry>)
    requires forall i :: 0 <= i < |es| ==> |es[i].name| <= NAME_SIZE
    ensures |Lines(es)| <= (NAME_SIZE + 1) * |es|
  {
    if es != [] {
      LinesShort(es[..|es| - 1]);
    }
  }

  /** What sys_kifs runs, with which data, or the error. */
  function Chosen(ops: Ops, opMode: int): (Callback, nat, int) {
    if opMode !in {0, 1} then (None, 0, EINVAL)
    else
      var f := if opMode == 0 then ops.read else ops.write;
      if f.None? then (None, 0, EPERM) else (f, ops.data, 0)
  }

  /** The loop of list_kifs: it gives up when a longest name might not fit any more. */
  method PrintAll(es: seq<Entry>, size: nat) returns (text: string, err: int)
    requires size > 0 && forall i :: 0 <= i < |es| ==> |es[i].name| <= NAME_SIZE
    ensures |text| <= size
    ensures err == if es != [] && |Lines(es[..|es| - 1])| + NAME_SIZE + 2 > size then ENOSPC else 0
    ensures err == 0 ==> text == Lines(es) + "\0"
  {
    text, err := "", 0;
    var i := 0;
    while i < |es|
      invariant 0 <= i <= |es| && text == Lines(es[..i])
      invariant i > 0 ==> |text| < size && |Lines(es[..i - 1])| + NAME_SIZE + 2 <= size
    {
      LinesGrow(es, i, |es| - 1);
      if |text| + NAME_SIZE + 2 > size {
        return "", ENOSPC;
      }
      LinesNext(es, i);
      text := text + es[i].name + "\n";
      i := i + 1;
    }
    assert es[..i] == es;
    text := text + "\0";
  }

  // ----- the registry as a value

  datatype Reg = Reg(slots: seq<Entry>, used: seq<nat>, free: seq<nat>)

  ghost predicate Ok(r: Reg) {
    && |r.slots| == MAX_KIFS_ENTRY
    && Partition(r.used, r.free)
    && NamesDistinct(Listed(r.slots, r.used))
  }

  function Bindings(r: Reg): map<string, Ops> {
    Registered(Listed(r.slots, r.used))
  }

  /** Where the list scans find a name: its place in the list, or the end. */
  function PlaceOf(es: seq<Entry>, name: string): (k: nat)
    ensures k <= |es| && (k < |es| ==> es[k].name == name)
    ensures forall j :: 0 <= j < k ==> es[j].name != name
  {
    if es == [] || es[0].name == name then 0 else 1 + PlaceOf(es[1..], name)
  }

  lemma PlaceIsBinding(es: seq<Entry>, name: string)
    requires NamesDistinct(es)
    ensures PlaceOf(es, name) < |es| <==> name in Registered(es)
    ensures PlaceOf(es, name) < |es| ==> Registered(es)[name] == es[PlaceOf(es, name)].ops
  {
    RegisteredIs(es);
  }

  function Created(r: Reg, name: string, ops: Ops): Reg {
    if r.free == [] || PlaceOf(Listed(r.slots, r.used), Cut(name)) < |r.used| || r.free[0] >= |r.slots| then r
    else Reg(r.slots[r.free[0] := Entry(Cut(name), ops)], [r.free[0]] + r.used, r.free[1..])
  }

  function Removed(r: Reg, name: string): Reg {
    var k := PlaceOf(Listed(r.slots, r.used), Cut(name));
    if k == |r.used| then r
    else Reg(r.slots, r.used[..k] + r.used[k + 1..], [r.used[k]] + r.free)
  }

  /** Creation fails exactly when no slot is free or the name exists; otherwise it binds the name. */
  lemma CreatedBinds(r: Reg, name: string, ops: Ops)
    requires Ok(r)
    ensures Ok(Created(r, name, ops))
    ensures Bindings(Created(r, name, ops)) ==
      if |r.used| == MAX_KIFS_ENTRY || Cut(name) in Bindings(r) then Bindings(r) else Bindings(r)[Cut(name) := ops]
  {
    var es := Listed(r.slots, r.used);
    PlaceIsBinding(es, Cut(name));
    if r.free != [] && Cut(name) !in Bindings(r) {
      RegisteredAdd(es, Entry(Cut(name), ops));
      ListedAdd(r.slots, r.used, r.free, Entry(Cut(name), ops));
      MoveKeepsPartition(r.used, r.free);
    }
  }

  lemma ListedDrop(slots: seq<Entry>, used: seq<nat>, k: nat)
    requires k < |used|
    ensures Listed(slots, used[..k] + used[k + 1..]) == Listed(slots, used)[..k] + Listed(slots, used)[k + 1..]
  {
  }

  /** Removal unbinds the name, if it is bound. */
  lemma RemovedUnbinds(r: Reg, name: string)
    requires Ok(r)
    ensures Ok(Removed(r, name)) && Bindings(Removed(r, name)) == Bindings(r) - {Cut(name)}
  {
    var es := Listed(r.slots, r.used);
    var k := PlaceOf(es, Cut(name));
    PlaceIsBinding(es, Cut(name));
    if k < |r.used| {
      DropKeepsPartition(r.used, r.free, k);
      RegisteredDrop(es, k);
      DropDistinct(es, k);
      InRange(r.used, r.free);
      ListedDrop(r.slots, r.used, k);
    }
  }

  /** With every slot on the free list, nothing is bound. */
  lemma AllFree(slots: seq<Entry>, free: seq<nat>)
    requires |slots| == MAX_KIFS_ENTRY && |free| == MAX_KIFS_ENTRY
    requires forall j :: 0 <= j < |free| ==> free[j] == MAX_KIFS_ENTRY - 1 - j
    ensures Ok(Reg(slots, [], free)) && Bindings(Reg(slots, [], free)) == map[]
  {
    assert [] + free == free;
  }

  // ----- calls between the lookup and the callback

  datatype Call = Create(name: string, ops: Ops) | Remove(name: string)

  function AfterCall(r: Reg, c: Call): Reg {
    match c
    case Create(name, ops) => Created(r, name, ops)
    case Remove(name) => Removed(r, name)
  }

  function AfterCalls(r: Reg, cs: seq<Call>): Reg {
    if cs == [] then r else AfterCall(AfterCalls(r, cs[..|cs| - 1]), cs[|cs| - 1])
  }

  lemma {:induction false} AfterCallsOk(r: Reg, cs: seq<Call>)
    requires Ok(r)
    ensures Ok(AfterCalls(r, cs))
  {
    if cs != [] {
      var r1, c := AfterCalls(r, cs[..|cs| - 1]), cs[|cs| - 1];
      AfterCallsOk(r, cs[..|cs| - 1]);
      match c
      case Create(name, ops) => CreatedBinds(r1, name, ops);
      case Remove(name) => RemovedUnbinds(r1, name);
    }
  }

  /** The call registers its entry in `slot`: the first free one, for a name that is not there. */
  predicate Takes(r: Reg, c: Call, slot: nat) {
    c.Create? && r.free != [] && r.free[0] == slot && Cut(c.name) !in Bindings(r)
  }

  /** The call gives `slot` back. */
  predicate Drops(r: Reg, c: Call, slot: nat) {
    c.Remove? && slot in r.used && slot < |r.slots| && r.slots[slot].name == Cut(c.name)
  }

  lemma UsedNotFree(used: seq<nat>, free: seq<nat>)
    requires Partition(used, free)
    ensures forall x :: x in used ==> x !in free
  {
    var all := used + free;
    assert forall i :: 0 <= i < |used| ==> all[i] == used[i];
    assert forall i :: 0 <= i < |free| ==> all[|used| + i] == free[i];
  }

  lemma CreateOnSlot(r: Reg, c: Call, slot: nat)
    requires Ok(r) && slot < MAX_KIFS_ENTRY && c.Create?
    ensures AfterCall(r, c).slots == r.slots || |AfterCall(r, c).slots| == |r.slots|
    ensures AfterCall(r, c).slots[slot] == if Takes(r, c, slot) then Entry(Cut(c.name), c.ops) else r.slots[slot]
    ensures slot in AfterCall(r, c).used <==> Takes(r, c, slot) || slot in r.used
  {
    PlaceIsBinding(Listed(r.slots, r.used), Cut(c.name));
    InRange(r.used, r.free);
    UsedNotFree(r.used, r.free);
  }

  lemma RemoveOnSlot(r: Reg, c: Call, slot: nat)
    requires Ok(r) && slot < MAX_KIFS_ENTRY && c.Remove?
    ensures AfterCall(r, c).slots == r.slots
    ensures slot in AfterCall(r, c).used <==> slot in r.used && !Drops(r, c, slot)
  {
    var es := Listed(r.slots, r.used);
    var k := PlaceOf(es, Cut(c.name));
    InRange(r.used, r.free);
    if k < |r.used| {
      UsedDistinct(r.used, r.free);
      OthersStay(r.used, k);
      if slot in r.used && r.slots[slot].name == Cut(c.name) {
        var j :| 0 <= j < |r.used| && r.used[j] == slot;
        assert es[j].name == es[k].name;
      }
    } else if slot in r.used {
      var j :| 0 <= j < |r.used| && r.used[j] == slot;
      assert es[j] == r.slots[slot];
    }
  }

  lemma UsedDistinct(used: seq<nat>, free: seq<nat>)
    requires Distinct(used + free)
    ensures Distinct(used)
  {
    assert forall i :: 0 <= i < |used| ==> (used + free)[i] == used[i];
  }

  lemma OthersStay(xs: seq<nat>, k: nat)
    requires Distinct(xs) && k < |xs|
    ensures forall x :: x in xs[..k] + xs[k + 1..] <==> x in xs && x != xs[k]
  {
    var ys := xs[..k] + xs[k + 1..];
    assert forall j :: 0 <= j < |ys| ==> ys[j] == xs[if j < k then j else j + 1];
    forall x | x in xs && x != xs[k]
      ensures x in ys
    {
      var j :| 0 <= j < |xs| && xs[j] == x;
      assert ys[if j < k then j else j - 1] == x;
    }
  }

  /** A slot given back is the next to be taken. */
  lemma RemovedFirst(r: Reg, name: string, slot: nat)
    requires Ok(r) && Drops(r, Remove(name), slot)
    ensures Removed(r, name).free != [] && Removed(r, name).free[0] == slot
  {
    var es := Listed(r.slots, r.used);
    InRange(r.used, r.free);
    var j :| 0 <= j < |r.used| && r.used[j] == slot;
    assert es[j] == r.slots[slot];
  }

  /** What one call does to a slot. */
  lemma CallOnSlot(r: Reg, c: Call, slot: nat)
    requires Ok(r) && slot < MAX_KIFS_ENTRY
    ensures var r' := AfterCall(r, c);
      && |r'.slots| == |r.slots|
      && r'.slots[slot] == (if Takes(r, c, slot) then Entry(Cut(c.name), c.ops) else r.slots[slot])
      && (slot in r'.used <==> Takes(r, c, slot) || (slot in r.used && !Drops(r, c, slot)))
  {
    if c.Create? {
      CreateOnSlot(r, c, slot);
    } else {
      RemoveOnSlot(r, c, slot);
    }
  }

  /** What a call means for one slot. */
  datatype Event = Nothing | Taken(e: Entry) | Dropped

  function EventOf(r: Reg, c: Call, slot: nat): Event {
    if Takes(r, c, slot) then Taken(Entry(Cut(c.name), c.ops)) else if Drops(r, c, slot) then Dropped else Nothing
  }

  /** What the calls, one after the other, mean for the slot. */
  function Events(r: Reg, cs: seq<Call>, slot: nat): (evs: seq<Event>)
    ensures |evs| == |cs|
  {
    if cs == [] then []
    else Events(r, cs[..|cs| - 1], slot) + [EventOf(AfterCalls(r, cs[..|cs| - 1]), cs[|cs| - 1], slot)]
  }

  function Content(e: Entry, evs: seq<Event>): Entry {
    if evs == [] then e
    else if evs[|evs| - 1].Taken? then evs[|evs| - 1].e
    else Content(e, evs[..|evs| - 1])
  }

  predicate InUse(now: bool, evs: seq<Event>) {
    if evs == [] then now
    else evs[|evs| - 1].Taken? || (!evs[|evs| - 1].Dropped? && InUse(now, evs[..|evs| - 1]))
  }

  /** After any calls the slot is what its events make of it. */
  lemma {:induction false} SlotFollowsEvents(r: Reg, cs: seq<Call>, slot: nat)
    requires Ok(r) && slot < MAX_KIFS_ENTRY
    ensures var r', evs := AfterCalls(r, cs), Events(r, cs, slot);
      && |r'.slots| == |r.slots|
      && r'.slots[slot] == Content(r.slots[slot], evs)
      && (slot in r'.used <==> InUse(slot in r.used, evs))
  {
    if cs != [] {
      var init := cs[..|cs| - 1];
      SlotFollowsEvents(r, init, slot);
      AfterCallsOk(r, init);
      CallOnSlot(AfterCalls(r, init), cs[|cs| - 1], slot);
      assert Events(r, cs, slot)[..|cs| - 1] == Events(r, init, slot);
    }
  }

  /** Event `k` is the last of all by which the slot is taken. */
  predicate LastTaken(evs: seq<Event>, k: int) {
    0 <= k < |evs| && evs[k].Taken? && forall l :: k < l < |evs| ==> !evs[l].Taken?
  }

  /** By event `k` the slot is given back, and it is not taken again. */
  predicate DroppedForGood(evs: seq<Event>, k: int) {
    0 <= k < |evs| && evs[k].Dropped? && forall l :: k < l < |evs| ==> !evs[l].Taken?
  }

  lemma {:induction false} ContentIsLast(e: Entry, evs: seq<Event>)
    ensures Content(e, evs) == e || exists k :: LastTaken(evs, k)
    ensures forall k :: LastTaken(evs, k) ==> Content(e, evs) == evs[k].e
  {
    if evs != [] {
      var init := evs[..|evs| - 1];
      if evs[|evs| - 1].Taken? {
        assert LastTaken(evs, |evs| - 1);
      } else {
        ContentIsLast(e, init);
        forall k
          ensures LastTaken(init, k) <==> LastTaken(evs, k)
        {
        }
      }
    }
  }

  lemma {:induction false} NotInUse(evs: seq<Event>)
    ensures !InUse(true, evs) <==> exists k :: DroppedForGood(evs, k)
  {
    if evs != [] {
      var init := evs[..|evs| - 1];
      if evs[|evs| - 1].Dropped? {
        assert DroppedForGood(evs, |evs| - 1);
      } else if !evs[|evs| - 1].Taken? {
        NotInUse(init);
        forall k
          ensures DroppedForGood(init, k) <==> DroppedForGood(evs, k)
        {
        }
      }
    }
  }

  /**
    sys_kifs after any calls in between: the callback is another one than that looked up exactly when the last call to
    take the slot has put another one there. Removals change nothing that it sees.
   */
  lemma ChosenExactly(r: Reg, cs: seq<Call>, slot: nat, opMode: int)
    requires Ok(r) && slot < MAX_KIFS_ENTRY
    ensures var evs, was := Events(r, cs, slot), Chosen(r.slots[slot].ops, opMode);
      && |AfterCalls(r, cs).slots| == |r.slots|
      && (Chosen(AfterCalls(r, cs).slots[slot].ops, opMode) != was
          <==> exists k :: LastTaken(evs, k) && Chosen(evs[k].e.ops, opMode) != was)
  {
    SlotFollowsEvents(r, cs, slot);
    ContentIsLast(r.slots[slot], Events(r, cs, slot));
  }

  /** The callback chosen is registered no longer exactly when the slot has been given back and not taken again. */
  lemma StaleExactly(r: Reg, cs: seq<Call>, slot: nat)
    requires Ok(r) && slot in r.used
    ensures slot !in AfterCalls(r, cs).used <==> exists k :: DroppedForGood(Events(r, cs, slot), k)
  {
    InRange(r.used, r.free);
    SlotFollowsEvents(r, cs, slot);
    NotInUse(Events(r, cs, slot));
  }

  /** A slot in use is registered under its present name, with its present callbacks. */
  lemma UsedIsBound(r: Reg, slot: nat)
    requires Ok(r) && slot in r.used
    ensures slot < |r.slots| && r.slots[slot].name in Bindings(r) && r.slots[slot].ops == Bindings(r)[r.slots[slot].name]
  {
    RegisteredIs(Listed(r.slots, r.used));
    InRange(r.used, r.free);
    var k :| 0 <= k < |r.used| && r.used[k] == slot;
    assert Listed(r.slots, r.used)[k] == r.slots[slot];
  }

  class Registry {
    const slots: array<Entry>
    var used: seq<nat>                       // entry_list
    var free: seq<nat>                       // free_list
    var numEntry: nat

    ghost predicate Valid()
      reads this, slots
    {
      Ok(Value()) && numEntry == |used|
    }

    ghost function Value(): Reg
      reads this, slots
    {
      Reg(slots[..], used, free)
    }

    ghost function View(): map<string, Ops>
      reads this, slots
    {
      Bindings(Value())
    }

    /** init_kifs_entry_set: the two entries every system has. */
    constructor (list: nat, clipRead: nat, clipWrite: nat)
      ensures Valid() && fresh(slots)
      ensures View() == map["list" := Ops(Some(list), None, 0), "clipboard" := Ops(Some(clipRead), Some(clipWrite), 0)]
    {
      slots := new Entry[MAX_KIFS_ENTRY](_ => Entry("", Ops(None, None, 0)));
      used, free, numEntry := [], [], 0;
      new;
      for i := 0 to MAX_KIFS_ENTRY
        invariant used == [] && numEntry == 0 && |free| == i
        invariant forall j :: 0 <= j < i ==> free[j] == i - 1 - j
      {
        free := [i] + free;
      }
      AllFree(slots[..], free);
      var r := CreateEntry("list", Ops(Some(list), None, 0));
      r := CreateEntry("clipboard", Ops(Some(clipRead), Some(clipWrite), 0));
    }

    /** The list scans: the place of the entry of that name in the used list. */
    method Find(name: string) returns (k: nat)
      requires Valid()
      ensures k == PlaceOf(Listed(slots[..], used), Cut(name)) && forall i :: 0 <= i < |used| ==> used[i] < slots.Length
      ensures k < |used| ==> slots[used[k]].name == Cut(name) && Cut(name) in View() && View()[Cut(name)] == slots[used[k]].ops
      ensures k == |used| ==> Cut(name) !in View()
    {
      k := 0;
      ghost var es := Listed(slots[..], used);
      PlaceIsBinding(es, Cut(name));
      InRange(used, free);
      while k < |used|
        invariant k <= PlaceOf(es, Cut(name))
      {
        assert es[k] == slots[used[k]];
        if Cut(slots[used[k]].name) == Cut(name) {
          return;
        }
        k := k + 1;
      }
    }

    /** Fails exactly when no slot is free or the name exists; otherwise the name is bound, in the first free slot. */
    method CreateEntry(name: string, ops: Ops) returns (slot: Option<nat>)
      requires Valid()
      modifies this, slots
      ensures Valid() && Value() == Created(old(Value()), name, ops)
      ensures slot.None? <==> |old(used)| == MAX_KIFS_ENTRY || Cut(name) in old(View())
      ensures View() == if slot.Some? then old(View())[Cut(name) := ops] else old(View())
      ensures slot.Some? ==>
        && slot.value < slots.Length && used == [slot.value] + old(used) && slots[slot.value] == Entry(Cut(name), ops)
        && old(free) != [] && slot.value == old(free)[0]
      ensures forall x :: 0 <= x < slots.Length && slot != Some(x) ==> slots[x] == old(slots[x])
    {
      CreatedBinds(Value(), name, ops);
      if free == [] {
        return None;
      }
      var k := Find(name);
      if k < |used| {
        return None;
      }
      InRange(used, free);
      var s := free[0];
      used, free := [s] + used, free[1..];
      numEntry := numEntry + 1;
      slots[s] := Entry(Cut(name), ops);
      assert slots[..] == old(slots[..])[s := Entry(Cut(name), ops)];
      return Some(s);
    }

    /** Fails exactly when the name does not exist; otherwise it is bound no more. */
    method RemoveEntry(name: string) returns (err: int)
      requires Valid()
      modifies `used, `free, `numEntry
      ensures Valid() && Value() == Removed(old(Value()), name)
      ensures err == (if Cut(name) in old(View()) then 0 else EINVAL)
      ensures View() == old(View()) - {Cut(name)}
    {
      RemovedUnbinds(Value(), name);
      var k := Find(name);
      if k == |used| {
        return EINVAL;
      }
      var s := used[k];
      used, free := used[..k] + used[k + 1..], [s] + free;
      numEntry := numEntry - 1;
      err := 0;
    }

    /** The part of sys_kifs under the lock: the slot the name is bound to. */
    method FindSlot(name: string) returns (slot: Option<nat>)
      requires Valid()
      ensures slot.Some? <==> Cut(name) in View()
      ensures slot.Some? ==> slot.value in used && slot.value < slots.Length && slots[slot.value] == Entry(Cut(name), View()[Cut(name)])
    {
      var k := Find(name);
      if k == |used| {
        return None;
      }
      return Some(used[k]);
    }

    /**
      The part after the lock has been given back: the callback to run with its data, or the error. It is what is
      registered under the name the slot has by now, if it is still in use; otherwise it is registered no longer.
     */
    method Dispatch(slot: nat, opMode: int) returns (callback: Callback, data: nat, err: int)
      requires Valid() && slot < slots.Length
      ensures (callback, data, err) == Chosen(slots[slot].ops, opMode)
      ensures slot in used ==> slots[slot].name in View() && slots[slot].ops == View()[slots[slot].name]
    {
      if slot in used {
        UsedIsBound(Value(), slot);
      }
      var ops := slots[slot].ops;
      if opMode == 0 {
        if ops.read == None {
          return None, 0, EPERM;
        }
        return ops.read, ops.data, 0;
      } else if opMode == 1 {
        if ops.write == None {
          return None, 0, EPERM;
        }
        return ops.write, ops.data, 0;
      }
      return None, 0, EINVAL;
    }

    /** sys_kifs with nothing in between. */
    method Lookup(name: string, opMode: int) returns (callback: Callback, data: nat, err: int)
      requires Valid()
      ensures (callback, data, err) == if Cut(name) in View() then Chosen(View()[Cut(name)], opMode) else (None, 0, EINVAL)
      ensures err == 0 ==> Cut(name) in View() && data == View()[Cut(name)].data && callback.Some?
      ensures err == 0 && opMode == 0 ==> callback == View()[Cut(name)].read
      ensures err == 0 && opMode == 1 ==> callback == View()[Cut(name)].write
      ensures err == -1 <==> (Cut(name) in View() && (if opMode == 0 then View()[Cut(name)].read == None else opMode == 1 && View()[Cut(name)].write == None))
      ensures err == -22 <==> (Cut(name) !in View() || (opMode != 0 && opMode != 1))
      ensures err in {0, -1, -22}
    {
      var slot := FindSlot(name);
      if slot == None {
        return None, 0, EINVAL;
      }
      callback, data, err := Dispatch(slot.value, opMode);
    }

    /**
      sys_kifs overtaken between its two parts: while the name it looked up is removed and another is registered, its
      slot changes hands, and the other name's callback is chosen.
     */
    method Overtaken(name: string, other: string, ops: Ops, opMode: int) returns (callback: Callback, data: nat, err: int)
      requires Valid() && Cut(name) in View() && Cut(other) !in View()
      modifies this, slots
      ensures Valid() && Cut(name) !in View() && Cut(other) in View() && View()[Cut(other)] == ops
      ensures (callback, data, err) == Chosen(ops, opMode)
    {
      var slot := FindSlot(name);
      CallOnSlot(Value(), Remove(name), slot.value);
      RemovedFirst(Value(), name, slot.value);
      var e := RemoveEntry(name);
      var r := CreateEntry(other, ops);
      callback, data, err := Dispatch(slot.value, opMode);
    }

    /** list_kifs: all names, or no space; what is written always fits. `seen` is the count read before taking the lock. */
    method ListKifs(maxchars: nat, seen: nat) returns (text: string, err: int)
      requires Valid()
      ensures var es := Listed(slots[..], used);
        var size := if maxchars < (NAME_SIZE + 2) * seen then maxchars else (NAME_SIZE + 2) * seen;
        && |text| <= size
        && err == (if size == 0 then ENOMEM else if es != [] && |Lines(es[..|es| - 1])| + NAME_SIZE + 2 > size then ENOSPC else 0)
        && (err == 0 ==> text == Lines(es) + "\0")
    {
      var size := if maxchars < (NAME_SIZE + 2) * seen then maxchars else (NAME_SIZE + 2) * seen;
      if size == 0 {
        return "", ENOMEM;
      }
      text, err := PrintAll(Listed(slots[..], used), size);
    }

    /** With the count as it is, a caller who offers room for it is never told there is no space. */
    method ListKifsFits(maxchars: nat) returns (text: string, err: int)
      requires Valid() && maxchars >= (NAME_SIZE + 2) * numEntry && numEntry > 0
      ensures err == 0 && text == Lines(Listed(slots[..], used)) + "\0"
    {
      var es := Listed(slots[..], used);
      LinesShort(es[..|es| - 1]);
      text, err := ListKifs(maxchars, numEntry);
    }
  }
}
