/**
  The ring of bytes under the FIFO device, and of pointers under the
  producer/consumer modules. `Ring` is the value of the C structure;
  the functions on it say what each operation leaves, position by position,
  and the class `CBuffer` runs the C code on an array and is proved to do that.
 */
module ByteRing {

  /** data, head, size; max_size is |data|. The bulk operations may leave `head == max_size`. */
  datatype Ring<T> = Ring(data: seq<T>, head: nat, size: nat) {
    predicate Ok() {
      |data| > 0 && head <= |data| && size <= |data|
    }
  }

  /** x modulo m, for the sums the ring forms. */
  function Wrap(x: nat, m: nat): nat
    requires x < 3 * m
  {
    if x < m then x else if x < 2 * m then x - m else x - 2 * m
  }

  lemma WrapIsMod(x: nat, m: nat)
    requires m > 0 && x < 3 * m
    ensures x % m == Wrap(x, m) < m
  {
    var q, r := x / m, x % m;
    assert x == m * q + r;
    MulOrder(m, q);
  }

  lemma MulOrder(m: nat, q: nat)
    ensures q == 0 ==> m * q == 0
    ensures q == 1 ==> m * q == m
    ensures q == 2 ==> m * q == 2 * m
    ensures q >= 3 ==> m * q >= 3 * m
  {
    if q >= 3 {
      assert m * q == m * (q - 3) + 3 * m;
    }
  }

  /** The unread bytes, oldest first. */
  function Contents<T>(r: Ring<T>): (c: seq<T>)
    requires r.Ok()
    ensures |c| == r.size
  {
    seq(r.size, i requires 0 <= i < r.size => r.data[Wrap(r.head + i, |r.data|)])
  }

  // ----- single items

  function InsertOne<T>(r: Ring<T>, x: T): Ring<T>
    requires r.Ok() && (r.size == |r.data| ==> r.head < |r.data|)
  {
    if r.size == |r.data| then Ring(r.data[r.head := x], Wrap(r.head + 1, |r.data|), r.size)
    else Ring(r.data[Wrap(r.head + r.size, |r.data|) := x], r.head, r.size + 1)
  }

  function RemoveOne<T>(r: Ring<T>, none: T): (Ring<T>, T)
    requires r.Ok() && (r.size > 0 ==> r.head < |r.data|)
  {
    if r.size == 0 then (r, none)
    else (Ring(r.data, Wrap(r.head + 1, |r.data|), r.size - 1), r.data[r.head])
  }

  function InsertEach<T>(r: Ring<T>, items: seq<T>): (o: Ring<T>)
    requires r.Ok() && r.head < |r.data|
    ensures o.Ok() && o.head < |o.data| && |o.data| == |r.data|
  {
    if items == [] then r else InsertOne(InsertEach(r, items[..|items| - 1]), items[|items| - 1])
  }

  function RemoveEach<T>(r: Ring<T>, n: nat, none: T): (o: (Ring<T>, seq<T>))
    requires r.Ok() && r.head < |r.data|
    ensures o.0.Ok() && o.0.head < |o.0.data|
  {
    if n == 0 then (r, []) else
      var (r1, bytes) := RemoveEach(r, n - 1, none);
      var (r2, x) := RemoveOne(r1, none);
      (r2, bytes + [x])
  }

  // ----- many items

  /** How far position `j` is from `from`, going forward and around. */
  function Ahead(j: nat, from: nat, m: nat): nat
    requires j < m && from < m
  {
    if j >= from then j - from else j + m - from
  }

  /** What position `j` holds once `items` lie one after the other from position `w` on. */
  function Inserted<T>(data: seq<T>, w: nat, items: seq<T>, j: nat): T
    requires j < |data| && w < |data|
  {
    if Ahead(j, w, |data|) < |items| then items[Ahead(j, w, |data|)] else data[j]
  }

  function SizeAfter(size: nat, n: nat, m: nat): nat {
    if size + n <= m then size + n else m
  }

  function HeadAfter(head: nat, size: nat, n: nat, m: nat): nat
    requires head <= m && size <= m && n <= m
  {
    if size + n <= m then head else Wrap(head + (size + n - m), m)
  }

  /** Items go to consecutive positions from the first free one on; what no longer fits pushes the head forward. */
  function InsertMany<T>(r: Ring<T>, items: seq<T>): (o: Ring<T>)
    requires r.Ok()
    ensures o.Ok() && |o.data| == |r.data|
  {
    var m, n := |r.data|, |items|;
    if n > m then r else
      var w := Wrap(r.head + r.size, m);
      var data := seq(m, j requires 0 <= j < m => Inserted(r.data, w, items, j));
      Ring(data, HeadAfter(r.head, r.size, n, m), SizeAfter(r.size, n, m))
  }

  /** Takes the `n` oldest bytes. The head stops at max_size when it lands there exactly. */
  function RemoveMany<T>(r: Ring<T>, n: nat): (o: Ring<T>)
    requires r.Ok()
    ensures o.Ok()
  {
    if n > r.size then r
    else Ring(r.data, if r.head + n > |r.data| then r.head + n - |r.data| else r.head + n, r.size - n)
  }

  /** The last `m` of `s`. */
  function Last<T>(s: seq<T>, m: nat): seq<T> {
    if |s| <= m then s else s[|s| - m..]
  }

  // ----- the ring is a bounded queue

  /** Where the `i`-th byte kept after inserting `n` lies: an old one where it was, a new one that far past the free position. */
  lemma Landing(head: nat, size: nat, n: nat, lost: nat, i: nat, m: nat)
    requires 0 < m && head <= m && size <= m && n <= m && i < size + n - lost
    requires lost == if size + n <= m then 0 else size + n - m
    ensures var w, j := Wrap(head + size, m), Wrap((if lost == 0 then head else Wrap(head + lost, m)) + i, m);
      && j < m && w < m
      && (lost + i < size ==> Ahead(j, w, m) >= n && j == Wrap(head + (lost + i), m))
      && (lost + i >= size ==> Ahead(j, w, m) == lost + i - size)
  {
  }

  /** What lies at position `j`, `i` places after the items lost. */
  lemma InsertedCase<T>(r: Ring<T>, items: seq<T>, w: nat, j: nat, k: nat)
    requires r.Ok() && j < |r.data| && w < |r.data| && k < r.size + |items|
    requires k < r.size ==> Ahead(j, w, |r.data|) >= |items| && j == Wrap(r.head + k, |r.data|)
    requires k >= r.size ==> Ahead(j, w, |r.data|) == k - r.size
    ensures Inserted(r.data, w, items, j) == if k < r.size then Contents(r)[k] else items[k - r.size]
  {
  }

  lemma InsertManyParts<T>(r: Ring<T>, items: seq<T>, lost: nat)
    requires r.Ok() && |items| <= |r.data|
    requires lost == if r.size + |items| <= |r.data| then 0 else r.size + |items| - |r.data|
    ensures var o := InsertMany(r, items);
      && o.head == (if lost == 0 then r.head else Wrap(r.head + lost, |r.data|))
      && o.size == r.size + |items| - lost
  {
  }

  lemma InsertManyAt<T>(r: Ring<T>, items: seq<T>, j: nat)
    requires r.Ok() && |items| <= |r.data| && j < |r.data|
    ensures var w := Wrap(r.head + r.size, |r.data|);
      w < |r.data| && InsertMany(r, items).data[j] == Inserted(r.data, w, items, j)
  {
  }

  /** The contents after an insert, place by place. */
  lemma ContentsAt<T>(o: Ring<T>, i: nat)
    requires o.Ok() && i < o.size
    ensures var j := Wrap(o.head + i, |o.data|); j < |o.data| && Contents(o)[i] == o.data[j]
  {
  }

  lemma InsertedAt<T>(r: Ring<T>, items: seq<T>, lost: nat, i: nat)
    requires r.Ok() && |items| <= |r.data| && i < r.size + |items| - lost
    requires lost == if r.size + |items| <= |r.data| then 0 else r.size + |items| - |r.data|
    ensures i < InsertMany(r, items).size
    ensures Contents(InsertMany(r, items))[i] == if lost + i < r.size then Contents(r)[lost + i] else items[lost + i - r.size]
  {
    var m := |r.data|;
    Landing(r.head, r.size, |items|, lost, i, m);
    InsertManyParts(r, items, lost);
    ContentsAt(InsertMany(r, items), i);
    var j := Wrap((if lost == 0 then r.head else Wrap(r.head + lost, m)) + i, m);
    InsertManyAt(r, items, j);
    InsertedCase(r, items, Wrap(r.head + r.size, m), j, lost + i);
  }

  /** A bulk insert appends; the oldest bytes give way when there is no room. */
  lemma InsertManyAppends<T>(r: Ring<T>, items: seq<T>)
    requires r.Ok() && |items| <= |r.data|
    ensures Contents(InsertMany(r, items)) == Last(Contents(r) + items, |r.data|)
  {
    var o, all := InsertMany(r, items), Contents(r) + items;
    var lost := if r.size + |items| <= |r.data| then 0 else r.size + |items| - |r.data|;
    assert all[lost..] == Last(all, |r.data|);
    forall i | 0 <= i < o.size
      ensures Contents(o)[i] == all[lost..][i]
    {
      InsertedAt(r, items, lost, i);
    }
  }

  /** The `n` oldest bytes lie in one piece, or in two around the end of the array. */
  lemma OldestAsSlices<T>(r: Ring<T>, n: nat)
    requires r.Ok() && n <= r.size
    ensures Contents(r)[..n]
         == if r.head + n <= |r.data| then r.data[r.head..r.head + n]
            else r.data[r.head..] + r.data[..r.head + n - |r.data|]
  {
    forall i | 0 <= i < n
      ensures Contents(r)[i] == if r.head + i < |r.data| then r.data[r.head + i] else r.data[r.head + i - |r.data|]
    {
      assert Contents(r)[i] == r.data[Wrap(r.head + i, |r.data|)];
    }
  }

  /** A bulk remove drops exactly the bytes it returned. */
  lemma RemoveManyDrops<T>(r: Ring<T>, n: nat)
    requires r.Ok() && n <= r.size
    ensures Contents(r) == Contents(r)[..n] + Contents(RemoveMany(r, n))
  {
    var o := RemoveMany(r, n);
    forall i | 0 <= i < o.size
      ensures Contents(o)[i] == Contents(r)[n + i]
    {
      assert Wrap(o.head + i, |r.data|) == Wrap(r.head + (n + i), |r.data|);
    }
  }

  // ----- bulk against single

  /** One more item lands on the position that `n - 1` items ahead of the first free one. */
  lemma NextLanding(head: nat, size: nat, n: nat, m: nat)
    requires 0 < n <= m && head < m && size <= m
    ensures var w := Wrap(head + size, m);
      var p := Wrap(w + (n - 1), m);
      && w < m && p < m
      && p == (if size + (n - 1) >= m then (if size + (n - 1) == m then head else Wrap(head + (size + (n - 1) - m), m))
               else Wrap(head + (size + (n - 1)), m))
  {
  }

  lemma AheadOfLanding(w: nat, n: nat, m: nat, j: nat)
    requires 0 < n <= m && w < m && j < m
    ensures j == Wrap(w + (n - 1), m) <==> Ahead(j, w, m) == n - 1
  {
  }

  /** A bulk insert leaves what inserting the items one by one leaves, overwriting included. */
  lemma {:induction false} InsertManyIsEach<T>(r: Ring<T>, items: seq<T>)
    requires r.Ok() && r.head < |r.data| && |items| <= |r.data|
    ensures InsertMany(r, items) == InsertEach(r, items)
  {
    var n := |items|;
    if n == 0 {
      assert InsertMany(r, items).data == r.data;
    } else {
      InsertManyIsEach(r, items[..n - 1]);
      InsertManyStep(r, items);
    }
  }

  /** Head and size after one more item are those of a single insert. */
  lemma NextHead(head: nat, size: nat, n: nat, m: nat)
    requires 0 < n <= m && head < m && size <= m
    ensures var h, z := HeadAfter(head, size, n - 1, m), SizeAfter(size, n - 1, m);
      && h < m && z <= m
      && HeadAfter(head, size, n, m) == (if z == m then Wrap(h + 1, m) else h)
      && SizeAfter(size, n, m) == (if z == m then z else z + 1)
  {
  }

  /** The data after one more item differ at that position only. */
  lemma DataStep<T>(data: seq<T>, w: nat, items: seq<T>, p: nat, j: nat)
    requires w < |data| && j < |data| && 0 < |items|
    requires j == p <==> Ahead(j, w, |data|) == |items| - 1
    ensures Inserted(data, w, items, j)
         == if j == p then items[|items| - 1] else Inserted(data, w, items[..|items| - 1], j)
  {
  }

  lemma InsertManyData<T>(r: Ring<T>, items: seq<T>)
    requires r.Ok() && r.head < |r.data| && 0 < |items| <= |r.data|
    ensures var p := Wrap(Wrap(r.head + r.size, |r.data|) + (|items| - 1), |r.data|);
      p < |r.data| && InsertMany(r, items).data == InsertMany(r, items[..|items| - 1]).data[p := items[|items| - 1]]
  {
    var m, n := |r.data|, |items|;
    NextLanding(r.head, r.size, n, m);
    var w := Wrap(r.head + r.size, m);
    var p := Wrap(w + (n - 1), m);
    var d, d1 := InsertMany(r, items).data, InsertMany(r, items[..n - 1]).data;
    forall j | 0 <= j < m
      ensures d[j] == d1[p := items[n - 1]][j]
    {
      AheadOfLanding(w, n, m, j);
      DataStep(r.data, w, items, p, j);
      assert d[j] == Inserted(r.data, w, items, j) && d1[j] == Inserted(r.data, w, items[..n - 1], j);
    }
  }

  lemma InsertManyStep<T>(r: Ring<T>, items: seq<T>)
    requires r.Ok() && r.head < |r.data| && 0 < |items| <= |r.data|
    requires InsertMany(r, items[..|items| - 1]).head < |r.data|
    ensures InsertMany(r, items) == InsertOne(InsertMany(r, items[..|items| - 1]), items[|items| - 1])
  {
    InsertManyData(r, items);
    NextLanding(r.head, r.size, |items|, |r.data|);
    NextHead(r.head, r.size, |items|, |r.data|);
  }

  /** A head of max_size and a head of 0 show the same bytes. */
  lemma HeadModulo<T>(r: Ring<T>)
    requires r.Ok()
    ensures Contents(r.(head := Wrap(r.head, |r.data|))) == Contents(r)
  {
    var o := r.(head := Wrap(r.head, |r.data|));
    forall i | 0 <= i < r.size
      ensures Contents(o)[i] == Contents(r)[i]
    {
      assert Wrap(o.head + i, |r.data|) == Wrap(r.head + i, |r.data|);
    }
  }

  /** One more item: the next in the contents, and the head one on, around the end. */
  lemma RemoveManyStep<T>(r: Ring<T>, n: nat, none: T)
    requires r.Ok() && r.head < |r.data| && 0 < n <= r.size
    ensures var o := RemoveMany(r, n - 1); var p := RemoveMany(r, n);
      RemoveOne(o.(head := Wrap(o.head, |r.data|)), none) == (p.(head := Wrap(p.head, |r.data|)), Contents(r)[n - 1])
  {
    assert Contents(r)[n - 1] == r.data[Wrap(r.head + (n - 1), |r.data|)];
  }

  /** A bulk remove returns what single removes return, and leaves the same bytes; the heads agree modulo max_size. */
  lemma {:induction false} RemoveManyIsEach<T>(r: Ring<T>, n: nat, none: T)
    requires r.Ok() && r.head < |r.data| && n <= r.size
    ensures RemoveEach(r, n, none).1 == Contents(r)[..n]
    ensures RemoveEach(r, n, none).0 == RemoveMany(r, n).(head := Wrap(RemoveMany(r, n).head, |r.data|))
    ensures Contents(RemoveEach(r, n, none).0) == Contents(RemoveMany(r, n))
  {
    if n > 0 {
      RemoveManyIsEach(r, n - 1, none);
      RemoveManyStep(r, n, none);
      assert Contents(r)[..n] == Contents(r)[..n - 1] + [Contents(r)[n - 1]];
    }
    HeadModulo(RemoveMany(r, n));
  }

  /** After a bulk remove the head is outside the array exactly when the last byte taken was the array's last. */
  lemma HeadLeavesArray<T>(r: Ring<T>, n: nat)
    requires r.Ok() && 0 < n <= r.size
    ensures RemoveMany(r, n).head == |r.data| <==> (r.head + n == |r.data| || r.head + n == 2 * |r.data|)
  {
  }

  // ----- the C code

  class CBuffer<T(0)> {
    var data: array<T>
    var head: nat
    var size: nat

    ghost predicate Valid()
      reads this, data
    {
      Value().Ok()
    }

    ghost function Value(): Ring<T>
      reads this, data
    {
      Ring(data[..], head, size)
    }

    constructor (maxSize: nat)
      requires maxSize > 0
      ensures Valid() && fresh(data) && data.Length == maxSize && head == 0 && size == 0 && Contents(Value()) == []
    {
      size := 0;
      head := 0;
      data := new T[maxSize];
    }

    /** memcpy into the array. */
    method CopyIn(at: nat, items: seq<T>)
      requires at + |items| <= data.Length
      modifies data
      ensures forall j :: 0 <= j < data.Length ==>
        data[j] == if at <= j < at + |items| then items[j - at] else old(data[j])
    {
      forall k | 0 <= k < |items| {
        data[at + k] := items[k];
      }
    }

    /** memcpy out of the array. */
    method CopyOut(at: nat, n: nat) returns (items: seq<T>)
      requires at + n <= data.Length
      ensures items == Value().data[at..at + n]
    {
      items := data[at..at + n];
    }

    method Insert(newItem: T)
      requires Valid() && (size == data.Length ==> head < data.Length)
      modifies this, data
      ensures Valid() && data == old(data) && Value() == InsertOne(old(Value()), newItem)
    {
      if size == data.Length {
        data[head] := newItem;
        if size != 0 {
          WrapIsMod(head + 1, data.Length);
          head := (head + 1) % data.Length;
        }
      } else {
        var pos := 0;
        if data.Length != 0 {
          WrapIsMod(head + size, data.Length);
          pos := (head + size) % data.Length;
        }
        data[pos] := newItem;
        size := size + 1;
      }
    }

    /** The block copies of a bulk insert: up to the end of the array, and the rest from its start. */
    method CopyAround(at: nat, items: seq<T>)
      requires at < data.Length && |items| <= data.Length
      modifies data
      ensures forall j :: 0 <= j < data.Length ==> data[j] == Inserted(old(data[..]), at, items, j)
    {
      var itemsLeft, whead := items, at;
      if whead + |itemsLeft| > data.Length {
        var copied := data.Length - whead;
        CopyIn(whead, itemsLeft[..copied]);
        itemsLeft := itemsLeft[copied..];
        whead := 0;
        assert forall j :: at <= j < data.Length ==> data[j] == items[j - at];
      }
      if itemsLeft != [] {
        CopyIn(whead, itemsLeft);
        whead := whead + |itemsLeft|;
      }
    }

    method InsertItems(items: seq<T>)
      requires Valid()
      modifies this, data
      ensures Valid() && data == old(data) && Value() == InsertMany(old(Value()), items)
    {
      var gaps := data.Length - size;
      WrapIsMod(head + size, data.Length);
      var whead := (head + size) % data.Length;
      if |items| > data.Length {
        return;
      }
      CopyAround(whead, items);
      assert data[..] == InsertMany(old(Value()), items).data;
      if gaps >= |items| {
        size := size + |items|;
      } else {
        size := data.Length;
        WrapIsMod(head + (|items| - gaps), data.Length);
        head := (head + (|items| - gaps)) % data.Length;
      }
    }

    /** The bytes copied to the caller; none when fewer are there than asked for. */
    method RemoveItems(n: nat) returns (items: seq<T>)
      requires Valid()
      modifies this
      ensures Valid() && data == old(data) && Value() == RemoveMany(old(Value()), n)
      ensures items == if n <= old(size) then Contents(old(Value()))[..n] else []
    {
      items := [];
      var left := n;
      if n > size {
        return;
      }
      ghost var was := Value();
      OldestAsSlices(was, n);
      if head + left > data.Length {
        var copied := data.Length - head;
        items := CopyOut(head, copied);
        left := left - copied;
        head := 0;
        assert items == was.data[was.head..];
      }
      if left != 0 {
        var rest := CopyOut(head, left);
        items := items + rest;
        head := head + left;
      }
      assert items == Contents(was)[..n];
      size := size - n;
    }

    method Remove(none: T) returns (ret: T)
      requires Valid() && (size > 0 ==> head < data.Length)
      modifies this
      ensures Valid() && data == old(data) && (Value(), ret) == RemoveOne(old(Value()), none)
    {
      ret := none;
      if size != 0 {
        ret := data[head];
        WrapIsMod(head + 1, data.Length);
        head := (head + 1) % data.Length;
        size := size - 1;
      }
    }
  }
}
