/** Finite sums and cardinalities: the bookkeeping shared by the state machines. */
module Counting {

  datatype Option<+T> = None | Some(value: T)

  function Bit(b: bool): int { if b then 1 else 0 }

  /** Two sets that agree everywhere but on `t` differ in size by what `t` contributes. */
  lemma OneChange<T>(a: set<T>, b: set<T>, t: T)
    requires forall x :: x != t ==> (x in a <==> x in b)
    ensures |b| == |a| - Bit(t in a) + Bit(t in b)
  {
    assert a - {t} == b - {t};
    assert t in a ==> a == (a - {t}) + {t};
    assert t in b ==> b == (b - {t}) + {t};
  }

  predicate Distinct(xs: seq<nat>) {
    forall i, j :: 0 <= i < j < |xs| ==> xs[i] != xs[j]
  }

  /** A set of one element at most has no two. */
  lemma OnlyOne<T>(s: set<T>, x: T, y: T)
    requires |s| <= 1 && x in s && y in s
    ensures x == y
  {
    OneChange(s - {x}, s, x);
  }

  function Sum(s: seq<int>): int {
    if s == [] then 0 else s[0] + Sum(s[1..])
  }

  /** `xs` with `n` added at `i`. */
  function Add(xs: seq<int>, i: nat, n: int): (r: seq<int>)
    ensures |r| == |xs|
  {
    if i < |xs| then xs[i := xs[i] + n] else xs
  }

  lemma {:induction false} SumAdd(xs: seq<int>, i: nat, n: int)
    requires i < |xs|
    ensures Sum(Add(xs, i, n)) == Sum(xs) + n
  {
    if i == 0 {
      assert Add(xs, i, n)[1..] == xs[1..];
    } else {
      assert Add(xs, i, n)[1..] == Add(xs[1..], i - 1, n);
      SumAdd(xs[1..], i - 1, n);
    }
  }
}
