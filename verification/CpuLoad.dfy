/**
  The per-CPU load averages `cpu_load[0..4]`, updated on every tick and decayed
  from a table for the ticks an idle CPU has missed.
 */
module CpuLoad {
  import opened Arithmetic

  const CPU_LOAD_IDX_MAX := 5
  const DEGRADE_ZERO_TICKS: seq<nat> := [0, 8, 32, 64, 128]
  const DEGRADE_FACTOR: seq<seq<nat>> := [
    [0, 0, 0, 0, 0, 0, 0, 0],
    [64, 32, 8, 0, 0, 0, 0, 0],
    [96, 72, 40, 12, 1, 0, 0, 0],
    [112, 98, 75, 43, 15, 1, 0, 0],
    [120, 112, 98, 76, 45, 16, 2, 0]]

  type Idx = i: int | 0 <= i < CPU_LOAD_IDX_MAX witness 0

  /** The table applied to the bits of `missed` from the `j`-th column on. */
  function Degraded(load: nat, missed: nat, idx: Idx, j: nat): nat
    requires missed < Pow2(if j <= 8 then 8 - j else 0)
    decreases missed
  {
    if missed == 0 then load
    else Degraded(if missed % 2 == 1 then load * DEGRADE_FACTOR[idx][j] / 128 else load, missed / 2, idx, j + 1)
  }

  /** The old load after `missed` idle ticks. */
  function Decayed(load: nat, missed: nat, idx: Idx): nat {
    if missed == 0 then load
    else if missed >= DEGRADE_ZERO_TICKS[idx] then 0
    else if idx == 1 then QuotientBounds(load, Pow2(missed)); load / Pow2(missed)
    else assert Pow2(7) == 128 && Pow2(8) == 256; Degraded(load, missed, idx, 0)
  }

  lemma FactorBelowOne(idx: Idx, j: nat)
    requires j < 8
    ensures |DEGRADE_FACTOR[idx]| == 8 && DEGRADE_FACTOR[idx][j] < 128
  {
  }

  lemma Shrinks(load: nat, factor: nat)
    requires factor < 128
    ensures load * factor / 128 <= load
  {
  }

  lemma {:induction false} DegradedShrinks(load: nat, missed: nat, idx: Idx, j: nat)
    requires missed < Pow2(if j <= 8 then 8 - j else 0)
    ensures Degraded(load, missed, idx, j) <= load
    decreases missed
  {
    if missed != 0 {
      FactorBelowOne(idx, j);
      Shrinks(load, DEGRADE_FACTOR[idx][j]);
      DegradedShrinks(if missed % 2 == 1 then load * DEGRADE_FACTOR[idx][j] / 128 else load, missed / 2, idx, j + 1);
    }
  }

  /** Missed ticks never raise a load. */
  lemma DecayedShrinks(load: nat, missed: nat, idx: Idx)
    ensures Decayed(load, missed, idx) <= load
  {
    if 0 < missed < DEGRADE_ZERO_TICKS[idx] {
      if idx == 1 {
        QuotientBounds(load, Pow2(missed));
      } else {
        assert Pow2(7) == 128 && Pow2(8) == 256;
        DegradedShrinks(load, missed, idx, 0);
      }
    }
  }

  /** The decay loop: it never leaves its row of the table. */
  method DecayLoadMissed(initial: nat, missedUpdates: nat, idx: Idx) returns (load: nat)
    ensures load == Decayed(initial, missedUpdates, idx)
  {
    load := initial;
    var missed: nat := missedUpdates;
    if missed == 0 {
      return;
    }
    if missed >= DEGRADE_ZERO_TICKS[idx] {
      return 0;
    }
    if idx == 1 {
      QuotientBounds(load, Pow2(missed));
      return load / Pow2(missed);
    }
    assert Pow2(7) == 128 && Pow2(8) == 256;
    var j: nat := 0;
    while missed != 0
      invariant 0 <= j <= 8 && missed < Pow2(8 - j)
      invariant Degraded(load, missed, idx, j) == Degraded(initial, missedUpdates, idx, 0)
      decreases missed
    {
      FactorBelowOne(idx, j);
      if missed % 2 == 1 {
        load := load * DEGRADE_FACTOR[idx][j] / 128;
      }
      missed := missed / 2;
      j := j + 1;
    }
  }

  // ----- the table against the exact decay

  /** `b` to the power 2^j, by squaring. */
  function Squared(b: nat, j: nat): nat {
    if j == 0 then b else Squared(b, j - 1) * Squared(b, j - 1)
  }

  /** `f` is 128 ((s-1)/s)^(2^j), rounded down. */
  predicate IsFactor(f: nat, s: nat, j: nat)
    requires s > 0
  {
    f * Squared(s, j) <= 128 * Squared(s - 1, j) < (f + 1) * Squared(s, j)
  }

  lemma Row1()
    ensures IsFactor(64, 2, 0) && IsFactor(32, 2, 1) && IsFactor(8, 2, 2) && IsFactor(0, 2, 3)
    ensures IsFactor(0, 2, 4) && IsFactor(0, 2, 5) && IsFactor(0, 2, 6) && IsFactor(0, 2, 7)
  {
  }

  lemma Row2()
    ensures IsFactor(96, 4, 0) && IsFactor(72, 4, 1) && IsFactor(40, 4, 2) && IsFactor(12, 4, 3)
    ensures IsFactor(1, 4, 4) && IsFactor(0, 4, 5) && IsFactor(0, 4, 6) && IsFactor(0, 4, 7)
  {
  }

  lemma Row3()
    ensures IsFactor(112, 8, 0) && IsFactor(98, 8, 1) && IsFactor(75, 8, 2) && IsFactor(43, 8, 3)
    ensures IsFactor(15, 8, 4) && IsFactor(1, 8, 5) && IsFactor(0, 8, 6) && IsFactor(0, 8, 7)
  {
  }

  lemma Row4()
    ensures IsFactor(120, 16, 0) && IsFactor(112, 16, 1) && IsFactor(98, 16, 2) && IsFactor(76, 16, 3)
    ensures IsFactor(45, 16, 4)
  {
  }

  lemma Row4End()
    ensures IsFactor(16, 16, 5) && IsFactor(2, 16, 6) && IsFactor(0, 16, 7)
  {
  }

  /** 2^idx. */
  function Scale(idx: Idx): nat { [1, 2, 4, 8, 16][idx] }

  /** The table holds, for each power of two of missed ticks, the exact factor in 128ths, rounded down. */
  lemma TableIsDecay(idx: Idx, j: nat)
    requires 0 < idx && j < 8
    ensures |DEGRADE_FACTOR[idx]| == 8 && IsFactor(DEGRADE_FACTOR[idx][j], Scale(idx), j)
  {
    Row1();
    Row2();
    Row3();
    Row4();
    Row4End();
  }

  lemma Associate(x: int, y: int, z: int)
    ensures x * (y * z) == (x * y) * z
  {
  }

  // ----- the decay against the exact one

  /** The exact decay, tick by tick: each leaves `x` of the load. */
  function Exact(load: real, x: real, n: nat): real {
    if n == 0 then load else x * Exact(load, x, n - 1)
  }

  /** What one tick leaves of a load: 1 - 1/2^idx of it. */
  function Rate(idx: Idx): (x: real)
    ensures 0.0 <= x <= 1.0
  {
    [0.0, 0.5, 0.75, 0.875, 0.9375][idx]
  }

  lemma {:induction false} ExactAdd(load: real, x: real, m: nat, n: nat)
    ensures Exact(load, x, m + n) == Exact(Exact(load, x, m), x, n)
  {
    if n > 0 {
      ExactAdd(load, x, m, n - 1);
    }
  }

  lemma RealScale(a: real, x: real, y: real)
    requires a >= 0.0 && x <= y
    ensures a * x <= a * y
  {
  }

  /** Two loads never drift apart. */
  lemma {:induction false} ExactKeeps(a: real, b: real, x: real, n: nat, gap: real)
    requires 0.0 <= x <= 1.0 && a <= b <= a + gap
    ensures Exact(a, x, n) <= Exact(b, x, n) <= Exact(a, x, n) + gap
  {
    if n > 0 {
      ExactKeeps(a, b, x, n - 1, gap);
      Closer(Exact(a, x, n), Exact(b, x, n), Exact(a, x, n - 1), Exact(b, x, n - 1), x, gap);
    }
  }

  lemma Closer(xa: real, xb: real, a: real, b: real, x: real, gap: real)
    requires 0.0 <= x <= 1.0 && a <= b <= a + gap && xa == x * a && xb == x * b
    ensures xa <= xb <= xa + gap
  {
    var d := b - a;
    var xd := x * d;
    Shrunk(xd, d, x);
    Difference(xd, xa, xb, d, a, b, x);
  }

  lemma Shrunk(xd: real, d: real, x: real)
    requires 0.0 <= x <= 1.0 && d >= 0.0 && xd == x * d
    ensures 0.0 <= xd <= d
  {
    RealScale(d, 0.0, x);
    RealScale(d, x, 1.0);
  }

  lemma Difference(xd: real, xa: real, xb: real, d: real, a: real, b: real, x: real)
    requires xd == x * d && xa == x * a && xb == x * b && b == a + d
    ensures xb == xa + xd
  {
  }

  lemma {:induction false} ExactFalls(load: real, x: real, n: nat)
    requires 0.0 <= x <= 1.0 && load >= 0.0
    ensures 0.0 <= Exact(load, x, n) <= load
  {
    if n > 0 {
      ExactFalls(load, x, n - 1);
      Shrunk(Exact(load, x, n), Exact(load, x, n - 1), x);
    }
  }

  // ----- the powers of the rate as fractions

  /** Over 2^j ticks `x` leaves num/den of any load. */
  ghost predicate Leaves(x: real, n: nat, num: nat, den: nat) {
    den > 0 && forall load: real :: Exact(load, x, n) * den as real == load * num as real
  }

  lemma LeavesOne(idx: Idx)
    requires 0 < idx
    ensures Leaves(Rate(idx), 1, Scale(idx) - 1, Scale(idx))
  {
    forall load: real
      ensures Exact(load, Rate(idx), 1) * Scale(idx) as real == load * (Scale(idx) - 1) as real
    {
      assert Exact(load, Rate(idx), 1) == Rate(idx) * Exact(load, Rate(idx), 0);
    }
  }

  lemma LeavesTwice(x: real, n: nat, m: nat, num: nat, den: nat)
    requires Leaves(x, n, num, den) && m == n + n
    ensures den * den > 0 && num * num >= 0 && Leaves(x, m, num * num, den * den)
  {
    IntMul(den, 1, den);
    IntMul(num, 0, num);
    CastMul(num, num);
    CastMul(den, den);
    forall load: real
      ensures Exact(load, x, m) * (den * den) as real == load * (num * num) as real
    {
      ExactAdd(load, x, n, n);
      TwoFractions(load, Exact(load, x, n), Exact(Exact(load, x, n), x, n), num as real, den as real);
    }
  }

  lemma TwoFractions(a: real, b: real, c: real, num: real, den: real)
    requires b * den == a * num && c * den == b * num
    ensures c * (den * den) == a * (num * num)
  {
    assert c * (den * den) == (c * den) * den == (b * num) * den == (b * den) * num;
  }

  lemma {:induction false} SquaredLeaves(idx: Idx, j: nat)
    requires 0 < idx
    ensures Leaves(Rate(idx), Pow2(j), Squared(Scale(idx) - 1, j), Squared(Scale(idx), j))
  {
    if j == 0 {
      LeavesOne(idx);
    } else {
      SquaredLeaves(idx, j - 1);
      LeavesTwice(Rate(idx), Pow2(j - 1), Pow2(j), Squared(Scale(idx) - 1, j - 1), Squared(Scale(idx), j - 1));
    }
  }

  /** An entry of the table with the fraction it stands for. */
  lemma Entry(idx: Idx, j: nat) returns (num: nat, den: nat)
    requires 0 < idx && j < 8
    ensures |DEGRADE_FACTOR[idx]| == 8
    ensures Leaves(Rate(idx), Pow2(j), num, den)
    ensures DEGRADE_FACTOR[idx][j] * den <= 128 * num < (DEGRADE_FACTOR[idx][j] + 1) * den
  {
    num, den := Squared(Scale(idx) - 1, j), Squared(Scale(idx), j);
    TableIsDecay(idx, j);
    SquaredLeaves(idx, j);
  }

  // ----- one factor

  /** What one factor may take too much: a 128th of the load, and one for the rounding. */
  function Loss(load: nat): real { load as real / 128.0 + 1.0 }

  /** `got` is at most `exact`, and at most `err` below it. */
  ghost predicate JustBelow(got: real, exact: real, err: real) {
    got <= exact <= got + err
  }

  lemma Strictly(a: real, x: real, y: real)
    requires a > 0.0 && x < y
    ensures x * a < y * a
  {
  }

  lemma Cancel(x: real, y: real, d: real)
    requires d > 0.0 && x * d <= y * d
    ensures x <= y
  {
    if x > y {
      Strictly(d, y, x);
    }
  }

  lemma FractionNear(load: int, f: int, num: int, den: int, e: real)
    requires load >= 0 && den > 0 && f * den <= 128 * num <= (f + 1) * den && e * den as real == load as real * num as real
    ensures (load * f) as real <= 128.0 * e <= (load * f + load) as real
  {
    IntMul(load, f * den, 128 * num);
    IntMul(load, 128 * num, (f + 1) * den);
    CastMul(load, num);
    CastMul(load * f, den);
    CastMul(load * f + load, den);
    Associate(load, f, den);
    Associate(load, f + 1, den);
    Split(load, f, 1);
    Associate(load, 128, num);
    Cancel((load * f) as real, 128.0 * e, den as real);
    Cancel(128.0 * e, (load * f + load) as real, den as real);
  }

  lemma FactorNear(load: nat, f: nat, num: nat, den: nat, e: real)
    requires den > 0 && f * den <= 128 * num < (f + 1) * den && e * den as real == load as real * num as real
    ensures load * f / 128 >= 0 && JustBelow((load * f / 128) as real, e, Loss(load))
  {
    FractionNear(load, f, num, den, e);
    IntMul(load, 0, f);
    Rounded(load, load * f, e);
  }

  lemma Rounded(load: nat, p: nat, e: real)
    requires p as real <= 128.0 * e <= (p + load) as real
    ensures JustBelow((p / 128) as real, e, Loss(load))
  {
  }

  lemma EntryNear(load: nat, idx: Idx, j: nat)
    requires 0 < idx && j < 8
    ensures |DEGRADE_FACTOR[idx]| == 8 && load * DEGRADE_FACTOR[idx][j] / 128 >= 0
    ensures JustBelow((load * DEGRADE_FACTOR[idx][j] / 128) as real, Exact(load as real, Rate(idx), Pow2(j)), Loss(load))
  {
    var num, den := Entry(idx, j);
    LeavesNear(load, DEGRADE_FACTOR[idx][j], num, den, Rate(idx), Pow2(j));
  }

  lemma LeavesNear(load: nat, f: nat, num: nat, den: nat, x: real, n: nat)
    requires Leaves(x, n, num, den) && f * den <= 128 * num < (f + 1) * den
    ensures load * f / 128 >= 0 && JustBelow((load * f / 128) as real, Exact(load as real, x, n), Loss(load))
  {
    FactorNear(load, f, num, den, Exact(load as real, x, n));
  }

  // ----- all factors

  /** The ticks that the bits of `m` stand for from the `j`-th on. */
  function BitTicks(m: nat, j: nat): nat
    decreases m
  {
    if m == 0 then 0 else (if m % 2 == 1 then Pow2(j) else 0) + BitTicks(m / 2, j + 1)
  }

  lemma {:induction false} BitTicksAre(m: nat, j: nat)
    ensures BitTicks(m, j) == m * Pow2(j)
    decreases m
  {
    if m > 0 {
      BitTicksAre(m / 2, j + 1);
      Halved(m, Pow2(j));
    }
  }

  lemma Halved(m: nat, p: nat)
    ensures m * p == (if m % 2 == 1 then p else 0) + m / 2 * (2 * p)
  {
    assert m == 2 * (m / 2) + m % 2;
  }

  /** The number of ones in the binary form of `m`: how many factors are applied. */
  function Ones(m: nat): nat
    decreases m
  {
    if m == 0 then 0 else m % 2 + Ones(m / 2)
  }

  lemma {:induction false} OnesSmall(m: nat, k: nat)
    requires m < Pow2(k)
    ensures Ones(m) <= k
  {
    if m > 0 {
      OnesSmall(m / 2, k - 1);
    }
  }

  /** `k` times the loss of one factor. */
  function Losses(k: nat, load: nat): real {
    if k == 0 then 0.0 else Losses(k - 1, load) + Loss(load)
  }

  lemma {:induction false} LossesGrow(k: nat, load: nat, more: nat)
    requires load <= more
    ensures Losses(k, load) <= Losses(k, more)
  {
    if k > 0 {
      LossesGrow(k - 1, load, more);
    }
  }

  /** A factor, and the rest of the factors: the ticks add, and so do the losses. */
  lemma NearAdds(load: nat, l: nat, r: nat, x: real, n: nat, rest: nat, k: nat)
    requires 0.0 <= x <= 1.0 && l <= load
    requires JustBelow(l as real, Exact(load as real, x, n), Loss(load))
    requires JustBelow(r as real, Exact(l as real, x, rest), Losses(k, l))
    ensures JustBelow(r as real, Exact(load as real, x, n + rest), Losses(k + 1, load))
  {
    LossesGrow(k, l, load);
    ExactKeeps(l as real, Exact(load as real, x, n), x, rest, Loss(load));
    ExactAdd(load as real, x, n, rest);
  }

  /** What the lowest bit of `missed` does. */
  lemma LowestBit(load: nat, missed: nat, idx: Idx, j: nat) returns (l: nat)
    requires 0 < idx && 0 < missed < Pow2(if j <= 8 then 8 - j else 0)
    ensures l <= load && missed / 2 < Pow2(if j + 1 <= 8 then 7 - j else 0)
    ensures Degraded(load, missed, idx, j) == Degraded(l, missed / 2, idx, j + 1)
    ensures if missed % 2 == 1 then JustBelow(l as real, Exact(load as real, Rate(idx), Pow2(j)), Loss(load)) else l == load
  {
    FactorBelowOne(idx, j);
    if missed % 2 == 1 {
      EntryNear(load, idx, j);
      Shrinks(load, DEGRADE_FACTOR[idx][j]);
      l := load * DEGRADE_FACTOR[idx][j] / 128;
    } else {
      l := load;
    }
  }

  lemma {:induction false} DegradedNear(load: nat, missed: nat, idx: Idx, j: nat, r: nat)
    requires 0 < idx && missed < Pow2(if j <= 8 then 8 - j else 0) && r == Degraded(load, missed, idx, j)
    ensures JustBelow(r as real, Exact(load as real, Rate(idx), BitTicks(missed, j)), Losses(Ones(missed), load))
    decreases missed
  {
    if missed != 0 {
      var l := LowestBit(load, missed, idx, j);
      DegradedNear(l, missed / 2, idx, j + 1, r);
      if missed % 2 == 1 {
        BitSet(load, l, r, missed, idx, j);
      } else {
        assert BitTicks(missed, j) == BitTicks(missed / 2, j + 1) && Ones(missed) == Ones(missed / 2);
      }
    }
  }

  lemma BitSet(load: nat, l: nat, r: nat, missed: nat, idx: Idx, j: nat)
    requires missed % 2 == 1 && l <= load && JustBelow(l as real, Exact(load as real, Rate(idx), Pow2(j)), Loss(load))
    requires JustBelow(r as real, Exact(l as real, Rate(idx), BitTicks(missed / 2, j + 1)), Losses(Ones(missed / 2), l))
    ensures JustBelow(r as real, Exact(load as real, Rate(idx), BitTicks(missed, j)), Losses(Ones(missed), load))
  {
    assert BitTicks(missed, j) == Pow2(j) + BitTicks(missed / 2, j + 1) && Ones(missed) == Ones(missed / 2) + 1;
    NearAdds(load, l, r, Rate(idx), Pow2(j), BitTicks(missed / 2, j + 1), Ones(missed / 2));
  }

  /** From degrade_zero_ticks on, the exact decay leaves less than a 128th. */
  lemma CutOff(load: nat, missed: nat, idx: Idx)
    requires 0 < idx && missed >= DEGRADE_ZERO_TICKS[idx]
    ensures 0.0 <= Exact(load as real, Rate(idx), missed) <= Loss(load)
  {
    var x, z, j := Rate(idx), DEGRADE_ZERO_TICKS[idx], [0, 3, 5, 6, 7][idx];
    assert Pow2(3) == 8 && Pow2(5) == 32 && Pow2(6) == 64 && Pow2(7) == 128;
    EntryNear(load, idx, j);
    assert DEGRADE_FACTOR[idx][j] == 0;
    ExactFalls(load as real, x, z);
    ExactAdd(load as real, x, z, missed - z);
    ExactFalls(Exact(load as real, x, z), x, missed - z);
  }

  /** A shift by `n` against `n` exact halvings. */
  lemma {:induction false} ShiftNear(load: real, n: nat)
    ensures Exact(load, 0.5, n) * Pow2(n) as real == load
  {
    if n > 0 {
      ShiftNear(load, n - 1);
      HalfTwice(Exact(load, 0.5, n - 1), Pow2(n - 1) as real);
    }
  }

  lemma HalfTwice(x: real, y: real)
    ensures (0.5 * x) * (2.0 * y) == x * y
  {
  }

  lemma Quotient(n: real, r: real, r1: real, p: real, e: real)
    requires p > 0.0 && e * p == n && r * p <= n <= r1 * p
    ensures r <= e <= r1
  {
    Cancel(r, e, p);
    Cancel(e, r1, p);
  }

  lemma Shifted(load: nat, r: nat, p: nat, e: real)
    requires p > 0 && e * p as real == load as real && r * p <= load < r * p + p
    ensures JustBelow(r as real, e, 1.0)
  {
    var lo, hi := r * p, (r + 1) * p;
    assert lo <= load <= hi;
    CastMul(r, p);
    CastMul(r + 1, p);
    Quotient(load as real, r as real, (r + 1) as real, p as real, e);
  }

  /** How many losses there may be: one for each factor applied, one for the cut-off; never more than 7. */
  function Lost(missed: nat, idx: Idx): (k: nat)
    ensures k <= 7
  {
    assert Pow2(7) == 128;
    if missed >= DEGRADE_ZERO_TICKS[idx] then 1 else OnesSmall(missed, 7); Ones(missed)
  }

  lemma {:induction false} LossesPositive(k: nat, load: nat)
    requires k > 0
    ensures Losses(k, load) >= Loss(load)
  {
    if k > 1 {
      LossesPositive(k - 1, load);
    }
  }

  lemma OnesPositive(m: nat)
    requires m > 0
    ensures Ones(m) > 0
  {
  }

  /**
    The load after missed ticks is never above its exact decay, which leaves 1 - 1/2^idx of it each tick, and below
    that by at most a 128th of the load, and one, for each factor applied.
   */
  lemma DecayedNearExact(load: nat, missed: nat, idx: Idx)
    requires 0 < idx
    ensures JustBelow(Decayed(load, missed, idx) as real, Exact(load as real, Rate(idx), missed), Losses(Lost(missed, idx), load))
  {
    if missed == 0 {
    } else if missed >= DEGRADE_ZERO_TICKS[idx] {
      CutOff(load, missed, idx);
      assert Losses(1, load) == Losses(0, load) + Loss(load);
    } else if idx == 1 {
      ShiftNear(load as real, missed);
      QuotientBounds(load, Pow2(missed));
      Shifted(load, load / Pow2(missed), Pow2(missed), Exact(load as real, 0.5, missed));
      OnesPositive(missed);
      LossesPositive(Ones(missed), load);
    } else {
      assert Pow2(7) == 128 && Pow2(8) == 256;
      DegradedNear(load, missed, idx, 0, Degraded(load, missed, idx, 0));
      BitTicksAre(missed, 0);
    }
  }

  // ----- one tick

  /** The average of the old load, weighted scale - 1, and the current one, rounded up when it rises. */
  function Averaged(old_: nat, cur: nat, scale: nat): nat
    requires scale > 0
  {
    var n: nat := old_ * (scale - 1) + (if cur > old_ then cur + scale - 1 else cur);
    QuotientBounds(n, scale);
    n / scale
  }

  function Distance(x: nat, y: nat): nat { if x < y then y - x else x - y }

  function CeilDiv(d: nat, s: nat): nat
    requires s > 0
  {
    QuotientBounds(d, s);
    if d % s == 0 then d / s else d / s + 1
  }

  lemma Rises(x: nat, y: nat, s: nat, q: nat, m: nat)
    requires s > 0 && y == x + s * q + m && 0 <= m < s && x < y
    ensures Averaged(x, y, s) == if m == 0 then x + q else x + q + 1
  {
    Split(x, s, -1);
    Split(s, x, q);
    var n := x * (s - 1) + y + s - 1;
    assert n == s * (x + q) + m + s - 1;
    if m == 0 {
      QuotientIs(n, s, x + q, s - 1);
    } else {
      Split(s, x + q, 1);
      QuotientIs(n, s, x + q + 1, m - 1);
    }
  }

  lemma Falls(x: nat, y: nat, s: nat, q: int, m: nat)
    requires s > 0 && q >= 0 && x == y + s * q + m && 0 <= m < s
    ensures Averaged(x, y, s) + q + (if m == 0 then 0 else 1) == x
  {
    Split(x, s, -1);
    Split(s, x, -q);
    var n := x * (s - 1) + y;
    assert n == s * (x - q) - m;
    if m == 0 {
      QuotientIs(n, s, x - q, 0);
    } else {
      Split(s, x - q, -1);
      QuotientIs(n, s, x - q - 1, s - m);
    }
  }

  lemma TickTakes(old_: nat, cur: nat, scale: nat, q: nat, m: nat, share: nat)
    requires scale > 0 && Distance(old_, cur) == scale * q + m && 0 <= m < scale
    requires share == (if m == 0 then q else q + 1) && share <= Distance(old_, cur)
    ensures Averaged(old_, cur, scale) == if old_ < cur then old_ + share else old_ - share
  {
    if old_ < cur {
      Rises(old_, cur, scale, q, m);
    } else {
      Falls(old_, cur, scale, q, m);
    }
  }

  /** A tick brings a load closer to the current one by a share of the distance, rounded up, and never past it. */
  lemma TickShrinksDistance(old_: nat, cur: nat, scale: nat)
    requires scale > 0
    ensures var r, d := Averaged(old_, cur, scale), Distance(old_, cur);
      && Distance(r, cur) == d - CeilDiv(d, scale)
      && (if old_ < cur then old_ <= r <= cur else cur <= r <= old_)
  {
    var d := Distance(old_, cur);
    var q, m := d / scale, d % scale;
    QuotientBounds(d, scale);
    assert d == scale * q + m;
    ShareBelow(d, scale);
    TickTakes(old_, cur, scale, q, m, CeilDiv(d, scale));
  }

  lemma ShareBelow(d: nat, s: nat)
    requires s > 0
    ensures CeilDiv(d, s) <= d
  {
    var q, m := d / s, d % s;
    QuotientBounds(d, s);
    assert d == s * q + m;
    IntMul(q, 1, s);
  }

  /** `n` consecutive ticks under a constant load. */
  function Ticks(load: nat, cur: nat, scale: nat, n: nat): nat
    requires scale > 0
    decreases n
  {
    if n == 0 then load else Ticks(Averaged(load, cur, scale), cur, scale, n - 1)
  }

  /** The current load is reached, exactly, in at most as many ticks as the distance. */
  lemma {:induction false} ReachesLoad(load: nat, cur: nat, scale: nat, n: nat)
    requires scale > 0 && n >= Distance(load, cur)
    ensures Ticks(load, cur, scale, n) == cur
    decreases n
  {
    if n > 0 {
      TickShrinksDistance(load, cur, scale);
      ReachesLoad(Averaged(load, cur, scale), cur, scale, n - 1);
    }
  }

  /** With missed ticks the new load lies between the decayed load and the current one. */
  lemma BetweenDecayedAndCurrent(old_: nat, missed: nat, cur: nat, idx: Idx)
    ensures var d := Decayed(old_, missed, idx);
      && d <= old_
      && var r := Averaged(d, cur, Pow2(idx)); if d < cur then d <= r <= cur else cur <= r <= d
  {
    DecayedShrinks(old_, missed, idx);
    TickShrinksDistance(Decayed(old_, missed, idx), cur, Pow2(idx));
  }

  /** Loads that stay below a bound stay below it for ever, and the sums on the way below sixteen times it. */
  lemma StaysBounded(old_: nat, missed: nat, cur: nat, idx: Idx, bound: nat)
    requires old_ <= bound && cur <= bound
    ensures var d, s := Decayed(old_, missed, idx), Pow2(idx);
      && Averaged(d, cur, s) <= bound
      && 0 <= d * (s - 1) + cur + s - 1 <= 16 * bound + 15
  {
    var d := Decayed(old_, missed, idx);
    DecayedShrinks(old_, missed, idx);
    BetweenDecayedAndCurrent(old_, missed, cur, idx);
    assert Pow2(2) == 4 && Pow2(3) == 8 && Pow2(4) == 16;
    IntMul(d, 0, Pow2(idx) - 1);
    IntMul(d, Pow2(idx) - 1, 15);
  }

  // ----- the runqueue

  /** The ticks from one value of jiffies to another, a word that wraps around. */
  function Elapsed(before: nat, now: nat, w: Width): (n: nat)
    requires before < w && now < w
    ensures n < w && (n == 0 <==> now == before)
    ensures (before + n) % w == now
  {
    if now >= before then Modulo(now, 0, w); now - before else Modulo(now, 1, w); now + w - before
  }

  lemma Modulo(x: nat, k: nat, w: Width)
    requires x < w && k <= 1
    ensures (x + k * w) % w == x
  {
    var n := x + k * w;
    QuotientIs(n, w, k, x);
    assert n == w * (n / w) + n % w;
  }

  class Rq {
    var weight: nat                          // load.weight
    const cpuLoad: array<nat>
    var lastLoadUpdateTick: nat
    var nrLoadUpdates: nat
    const w: Width                           // of jiffies

    predicate Valid()
      reads this
    {
      cpuLoad.Length == CPU_LOAD_IDX_MAX && lastLoadUpdateTick < w
    }

    /** As sched_init leaves it: no load, and the current tick as the last one. */
    constructor (w: Width, jiffies: nat)
      requires jiffies < w
      ensures Valid() && fresh(cpuLoad) && this.w == w
      ensures weight == 0 && nrLoadUpdates == 0 && lastLoadUpdateTick == jiffies
      ensures cpuLoad[..] == [0, 0, 0, 0, 0]
    {
      this.w := w;
      weight, lastLoadUpdateTick, nrLoadUpdates := 0, jiffies, 0;
      cpuLoad := new nat[CPU_LOAD_IDX_MAX](_ => 0);
    }

    /** The body of the loop: `>> i` divides by the scale. */
    static method Average(oldLoad: nat, thisLoad: nat, i: Idx, scale: nat) returns (r: nat)
      requires scale == Pow2(i)
      ensures r == Averaged(oldLoad, thisLoad, scale)
    {
      var newLoad: nat := thisLoad;
      if newLoad > oldLoad {
        newLoad := newLoad + scale - 1;
      }
      QuotientBounds(oldLoad * (scale - 1) + newLoad, Pow2(i));
      r := (oldLoad * (scale - 1) + newLoad) / Pow2(i);
    }

    /** One average: it decays for the ticks missed and takes the current load in. */
    static method Update(oldLoad: nat, missed: nat, thisLoad: nat, i: Idx, scale: nat) returns (r: nat)
      requires scale == Pow2(i)
      ensures r == Averaged(Decayed(oldLoad, missed, i), thisLoad, Pow2(i))
    {
      var decayed := DecayLoadMissed(oldLoad, missed, i);
      r := Average(decayed, thisLoad, i, scale);
    }

    /** The loop over the averages. */
    method UpdateAverages(missed: nat, thisLoad: nat)
      requires cpuLoad.Length == CPU_LOAD_IDX_MAX
      modifies cpuLoad
      ensures cpuLoad[0] == old(cpuLoad[0])
      ensures forall i :: 1 <= i < CPU_LOAD_IDX_MAX ==> cpuLoad[i] == Averaged(Decayed(old(cpuLoad[i]), missed, i), thisLoad, Pow2(i))
    {
      var i, scale: nat := 1, 2;
      while i < CPU_LOAD_IDX_MAX
        invariant 1 <= i <= CPU_LOAD_IDX_MAX && scale == Pow2(i)
        invariant cpuLoad[0] == old(cpuLoad[0])
        invariant forall k :: 1 <= k < i ==> cpuLoad[k] == Averaged(Decayed(old(cpuLoad[k]), missed, k), thisLoad, Pow2(k))
        invariant forall k :: i <= k < CPU_LOAD_IDX_MAX ==> cpuLoad[k] == old(cpuLoad[k])
      {
        cpuLoad[i] := Update(cpuLoad[i], missed, thisLoad, i, scale);
        i, scale := i + 1, scale + scale;
      }
    }

    /** Every average decays for the ticks missed and then takes the current load in; once a tick only. */
    method UpdateCpuLoad(jiffies: nat)
      requires Valid() && jiffies < w
      modifies cpuLoad, `lastLoadUpdateTick, `nrLoadUpdates
      ensures Valid() && lastLoadUpdateTick == jiffies && nrLoadUpdates == old(nrLoadUpdates) + 1
      ensures jiffies == old(lastLoadUpdateTick) ==> cpuLoad[..] == old(cpuLoad[..])
      ensures jiffies != old(lastLoadUpdateTick) ==>
        var missed := Elapsed(old(lastLoadUpdateTick), jiffies, w) - 1;
        && missed >= 0
        && cpuLoad[0] == weight
        && forall i :: 1 <= i < CPU_LOAD_IDX_MAX ==> cpuLoad[i] == Averaged(Decayed(old(cpuLoad[i]), missed, i), weight, Pow2(i))
    {
      var thisLoad := weight;
      nrLoadUpdates := nrLoadUpdates + 1;
      if jiffies == lastLoadUpdateTick {
        return;
      }
      var pending := Elapsed(lastLoadUpdateTick, jiffies, w);
      lastLoadUpdateTick := jiffies;
      cpuLoad[0] := thisLoad;
      UpdateAverages(pending - 1, thisLoad);
    }
  }
}
