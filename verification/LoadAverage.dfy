/**
  The load average in fixed point: one step, a power in a logarithmic number of
  steps, and the two together for the cycles an idle machine has missed. The
  number `w` of values of a word is a parameter, 2^32 or 2^64 in the kernel.
 */
module LoadAverage {
  import opened Arithmetic

  const FSHIFT: nat := 11
  const FIXED_1: nat := 2048

  /** `x` cut to a word. */
  function Word(x: nat, w: Width): (r: nat)
    ensures r < w && (x < w ==> r == x)
  {
    if x < w then x else x % w
  }

  function Abs(x: real): real { if x < 0.0 then -x else x }

  function Pow(x: real, n: nat): real {
    if n == 0 then 1.0 else x * Pow(x, n - 1)
  }

  lemma {:induction false} PowAdd(x: real, m: nat, n: nat)
    ensures Pow(x, m + n) == Pow(x, m) * Pow(x, n)
  {
    if m > 0 {
      PowAdd(x, m - 1, n);
      assert Pow(x, m) * Pow(x, n) == x * (Pow(x, m - 1) * Pow(x, n));
    }
  }

  lemma {:induction false} PowUnit(x: real, n: nat)
    requires 0.0 <= x <= 1.0
    ensures 0.0 <= Pow(x, n) <= 1.0
  {
    if n > 0 {
      PowUnit(x, n - 1);
      ProductUnit(x, Pow(x, n - 1));
    }
  }

  lemma RealMul(x: real, y: real, z: real)
    requires x >= 0.0 && 0.0 <= y <= z
    ensures 0.0 <= x * y <= x * z
  {
  }

  lemma ProductUnit(x: real, y: real)
    requires 0.0 <= x <= 1.0 && 0.0 <= y <= 1.0
    ensures 0.0 <= x * y <= 1.0 && x * y <= x && x * y <= y
  {
    RealMul(x, y, 1.0);
    RealMul(y, x, 1.0);
  }

  // ----- rounding

  /** A fixed-point number as a real. */
  function Val(a: int, f: nat): real
    requires f > 0
  {
    a as real / f as real
  }

  /** `p` divided by `f`, rounded to the nearest. */
  lemma Rounded(p: nat, f: nat)
    requires f > 0 && f % 2 == 0 && p <= f * f
    ensures var q := (p + f / 2) / f; 0 <= q <= f && 0 <= 2 * (q * f - p) + f <= 2 * f
  {
    var q := (p + f / 2) / f;
    QuotientBounds(p + f / 2, f);
    if q >= f + 1 {
      IntMul(f, f + 1, q);
    }
  }

  lemma ProductFits(a: nat, b: nat, f: nat)
    requires a <= f && b <= f
    ensures 0 <= a * b <= f * f
  {
    IntMul(a, 0, b);
    IntMul(a, b, f);
    IntMul(f, a, f);
  }

  lemma ValTimes(a: int, f: nat)
    requires f > 0
    ensures Val(a, f) * f as real == a as real
  {
  }

  /** `q` is the product of `a` and `b` in unit `f`, up to half a unit. */
  ghost predicate Near(a: nat, b: nat, q: nat, f: nat)
    requires f > 0
  {
    q <= f && Abs(Val(q, f) - Val(a, f) * Val(b, f)) <= 0.5 / f as real
  }

  lemma RoundedReal(a: int, b: int, q: int, f: int)
    requires 0 <= 2 * (q * f - a * b) + f <= 2 * f
    ensures -f as real <= 2.0 * (q as real * f as real - a as real * b as real) <= f as real
  {
    CastMul(q, f);
    CastMul(a, b);
  }

  /** Rounding is off by half a unit at most. */
  lemma RoundMulNear(a: nat, b: nat, q: nat, f: nat)
    requires f > 0 && q <= f && 0 <= 2 * (q * f - a * b) + f <= 2 * f
    ensures Near(a, b, q, f)
  {
    ValTimes(a, f);
    ValTimes(b, f);
    ValTimes(q, f);
    RoundedReal(a, b, q, f);
    NearReal(Val(a, f), Val(b, f), Val(q, f), f as real, a as real, b as real, q as real);
  }

  lemma NearReal(x: real, y: real, z: real, r: real, a: real, b: real, q: real)
    requires r > 0.0 && x * r == a && y * r == b && z * r == q
    requires -r <= 2.0 * (q * r - a * b) <= r
    ensures Abs(z - x * y) <= 0.5 / r
  {
    var d := z - x * y;
    assert d * (r * r) == (z * r) * r - (x * r) * (y * r);
    DivideBound(d, q * r - a * b, r);
  }

  lemma DivideBound(d: real, e: real, r: real)
    requires r > 0.0 && d * (r * r) == e && -r <= 2.0 * e <= r
    ensures Abs(d) <= 0.5 / r
  {
    assert d * r == e / r;
    assert -0.5 <= d * r <= 0.5;
    assert d == (d * r) / r;
  }

  // ----- the power

  /** How the errors of two factors and a rounding add up. */
  lemma ErrorOfProduct(x: real, y: real, z: real, a: real, b: real, ab: real, ea: real, eb: real, h: real)
    requires 0.0 <= y <= 1.0 && 0.0 <= a <= 1.0 && ab == a * b
    requires Abs(x - a) <= ea && Abs(y - b) <= eb && Abs(z - x * y) <= h
    ensures Abs(z - ab) <= ea + eb + h
  {
    assert x * y - a * b == (x - a) * y + a * (y - b);
    ScaledDown(x - a, y, ea);
    ScaledDown(y - b, a, eb);
  }

  lemma ScaledDown(d: real, u: real, e: real)
    requires 0.0 <= u <= 1.0 && Abs(d) <= e
    ensures Abs(d * u) <= e
  {
    if d >= 0.0 {
      RealMul(d, u, 1.0);
    } else {
      RealMul(-d, u, 1.0);
      assert d * u == -(-d * u);
    }
  }

  lemma {:induction false} Pow2Even(k: nat)
    ensures Pow2(k) > 0 && (k > 0 ==> Pow2(k) % 2 == 0)
  {
    if k > 0 {
      Pow2Even(k - 1);
    }
  }

  lemma ValUnit(a: nat, f: nat)
    requires f > 0 && a <= f
    ensures 0.0 <= Val(a, f) <= 1.0
  {
  }

  /** `k` half units of the fixed-point number. */
  function Halves(k: nat, f: nat): real
    requires f > 0
  {
    k as real * (0.5 / f as real)
  }

  /** `got` is no more than one, and within `err` of `exact`. */
  ghost predicate Within(got: nat, exact: real, err: real, f: nat)
    requires f > 0
  {
    got <= f && Abs(Val(got, f) - exact) <= err
  }

  lemma HalvesAdd(j: nat, k: nat, f: nat)
    requires f > 0
    ensures Halves(j, f) + Halves(k, f) + 0.5 / f as real == Halves(j + k + 1, f)
  {
    Distribute(j as real, k as real, 0.5 / f as real);
  }

  lemma Distribute(j: real, k: real, h: real)
    ensures j * h + k * h + h == (j + k + 1.0) * h
  {
  }

  lemma ProductStep(a: nat, b: nat, q: nat, x: real, y: real, xy: real, ea: real, eb: real, f: nat)
    requires f > 0 && 0.0 <= x <= 1.0 && xy == x * y && Near(a, b, q, f)
    requires Within(a, x, ea, f) && Within(b, y, eb, f)
    ensures Within(q, xy, ea + eb + 0.5 / f as real, f)
  {
    ValUnit(b, f);
    ErrorOfProduct(Val(a, f), Val(b, f), Val(q, f), x, y, xy, ea, eb, 0.5 / f as real);
  }

  /** One product of the loop: the powers add, and so do the errors, with half a unit more. */
  lemma PowerStep(a: nat, b: nat, q: nat, v: real, m: nat, n: nat, ea: real, eb: real, f: nat)
    requires f > 0 && 0.0 <= v <= 1.0 && Near(a, b, q, f)
    requires Within(a, Pow(v, m), ea, f) && Within(b, Pow(v, n), eb, f)
    ensures Within(q, Pow(v, m + n), ea + eb + 0.5 / f as real, f)
  {
    PowAdd(v, m, n);
    PowUnit(v, m);
    ProductStep(a, b, q, Pow(v, m), Pow(v, n), Pow(v, m + n), ea, eb, f);
  }

  /** No word overflows on the way. */
  lemma WordsRounded(p: nat, f: nat, w: Width)
    requires f > 0 && f % 2 == 0 && p <= f * f && f * f + f / 2 < w
    ensures var q := Word(Word(p, w) + f / 2, w) / f; 0 <= q <= f && 0 <= 2 * (q * f - p) + f <= 2 * f
  {
    Rounded(p, f);
  }

  /** Multiply, add half, shift. */
  method FixMul(a: nat, b: nat, f: nat, w: Width) returns (q: nat)
    requires f > 0 && f % 2 == 0 && a <= f && b <= f && f * f + f / 2 < w
    ensures q <= f && 0 <= 2 * (q * f - a * b) + f <= 2 * f
  {
    ProductFits(a, b, f);
    WordsRounded(a * b, f, w);
    q := Word(Word(a * b, w) + f / 2, w) / f;
  }

  /** Unit and base as powers, before any product. */
  lemma PowerStart(base: nat, f: nat)
    requires f > 0 && base <= f
    ensures 0.0 <= Val(base, f) <= 1.0
    ensures Within(f, Pow(Val(base, f), 0), Halves(0, f), f) && Within(base, Pow(Val(base, f), 1), Halves(0, f), f)
  {
    ValUnit(base, f);
    ValTimes(f, f);
    assert Pow(Val(base, f), 1) == Val(base, f) * Pow(Val(base, f), 0);
  }

  /** x^n by squaring: never above one, and within n/2 units of the exact power. */
  method FixedPowerInt(base: nat, fracBits: nat, exponent: nat, w: Width) returns (result: nat)
    requires fracBits >= 1 && base <= Pow2(fracBits)
    requires var f := Pow2(fracBits); f * f + f / 2 < w
    ensures Pow2(fracBits) > 0
    ensures var f := Pow2(fracBits); Within(result, Pow(Val(base, f), exponent), Halves(exponent, f), f)
  {
    Pow2Even(fracBits);
    var f := Pow2(fracBits);
    var x: nat, n: nat := base, exponent;
    result := f;
    ghost var v, done: nat, m: nat := Val(base, f), 0, 1;
    PowerStart(base, f);
    if n != 0 {
      while true
        invariant n > 0 && exponent == done + m * n && m > 0
        invariant Within(result, Pow(v, done), Halves(done, f), f)
        invariant Within(x, Pow(v, m), Halves(m - 1, f), f)
        decreases n
      {
        Halve(done, m, n);
        if n % 2 == 1 {
          var q := FixMul(result, x, f, w);
          RoundMulNear(result, x, q, f);
          PowerStep(result, x, q, v, done, m, Halves(done, f), Halves(m - 1, f), f);
          HalvesAdd(done, m - 1, f);
          result, done := q, done + m;
        }
        n := n / 2;
        if n == 0 {
          break;
        }
        var q := FixMul(x, x, f, w);
        RoundMulNear(x, x, q, f);
        PowerStep(x, x, q, v, m, m, Halves(m - 1, f), Halves(m - 1, f), f);
        HalvesAdd(m - 1, m - 1, f);
        x, m := q, m + m;
      }
    }
  }

  lemma Halve(done: nat, m: nat, n: nat)
    ensures done + m * n == done + (if n % 2 == 1 then m else 0) + (m + m) * (n / 2)
  {
    assert n == 2 * (n / 2) + n % 2;
  }

  // ----- the load average

  /** Small enough for the products of a step to fit a word. */
  predicate Small(x: nat, w: Width) { x * FIXED_1 + FIXED_1 / 2 < w }

  /** One cycle: load * e + active * (1 - e), rounded. */
  function CalcLoad(load: nat, exp: nat, active: nat, w: Width): nat
    requires exp <= FIXED_1
  {
    ProductFits(exp, exp, FIXED_1);
    IntMul(load, 0, exp);
    IntMul(active, 0, FIXED_1 - exp);
    Word(Word(Word(load * exp, w) + Word(active * (FIXED_1 - exp), w), w) + FIXED_1 / 2, w) / FIXED_1
  }

  /** A weighted sum lies between what it weighs. */
  lemma SumBetween(lo: nat, hi: nat, x: nat, y: nat)
    requires lo <= hi
    ensures (x + y) * lo <= x * lo + y * hi <= (x + y) * hi
    ensures (x + y) * lo <= x * hi + y * lo <= (x + y) * hi
  {
    IntMul(x, lo, hi);
    IntMul(y, lo, hi);
    Split(lo, x, y);
    Split(hi, x, y);
  }

  lemma WordsOfSum(p: nat, q: nat, w: Width)
    requires p + q + FIXED_1 / 2 < w
    ensures Word(Word(Word(p, w) + Word(q, w), w) + FIXED_1 / 2, w) == p + q + FIXED_1 / 2
  {
  }

  lemma LoadsBetween(load: nat, exp: nat, active: nat)
    requires exp <= FIXED_1
    ensures var p, q := load * exp, active * (FIXED_1 - exp);
      && 0 <= p && 0 <= q
      && (if load < active then load * FIXED_1 <= p + q <= active * FIXED_1 else active * FIXED_1 <= p + q <= load * FIXED_1)
  {
    IntMul(load, 0, exp);
    IntMul(active, 0, FIXED_1 - exp);
    if load < active {
      SumBetween(load, active, exp, FIXED_1 - exp);
    } else {
      SumBetween(active, load, FIXED_1 - exp, exp);
    }
  }

  /** The weighted sum lies between the two loads, and no word overflows. */
  lemma WeightedSum(load: nat, exp: nat, active: nat, w: Width)
    requires exp <= FIXED_1 && Small(load, w) && Small(active, w)
    ensures var sum := load * exp + active * (FIXED_1 - exp);
      && (if load < active then load * FIXED_1 <= sum <= active * FIXED_1 else active * FIXED_1 <= sum <= load * FIXED_1)
      && CalcLoad(load, exp, active, w) == (sum + FIXED_1 / 2) / FIXED_1
  {
    LoadsBetween(load, exp, active);
    WordsOfSum(load * exp, active * (FIXED_1 - exp), w);
  }

  /** The new load lies between the old one and the number of active tasks. */
  lemma CalcLoadBetween(load: nat, exp: nat, active: nat, w: Width)
    requires exp <= FIXED_1 && Small(load, w) && Small(active, w)
    ensures var r := CalcLoad(load, exp, active, w); if load < active then load <= r <= active else active <= r <= load
  {
    WeightedSum(load, exp, active, w);
  }

  /** The exact load after a cycle with decay `e`. */
  function Exact(load: real, e: real, active: real): real {
    active + (load - active) * e
  }

  lemma CalcLoadInt(load: nat, exp: nat, active: nat, w: Width)
    requires exp <= FIXED_1 && Small(load, w) && Small(active, w)
    ensures -1024 <= 2048 * CalcLoad(load, exp, active, w) - (load * exp + active * (FIXED_1 - exp)) <= 1024
  {
    WeightedSum(load, exp, active, w);
  }

  lemma IntError(r: nat, load: nat, exp: nat, active: nat)
    requires exp <= FIXED_1 && -1024 <= 2048 * r - (load * exp + active * (FIXED_1 - exp)) <= 1024
    ensures Abs(r as real - Exact(load as real, Val(exp, FIXED_1), active as real)) <= 0.5
  {
    CastMul(load, exp);
    CastMul(active, FIXED_1 - exp);
    ScaleExact(load as real, exp as real, active as real);
  }

  /** A cycle is off by half a unit at most. */
  lemma CalcLoadError(load: nat, exp: nat, active: nat, w: Width)
    requires exp <= FIXED_1 && Small(load, w) && Small(active, w)
    ensures Abs(CalcLoad(load, exp, active, w) as real - Exact(load as real, Val(exp, FIXED_1), active as real)) <= 0.5
  {
    CalcLoadInt(load, exp, active, w);
    IntError(CalcLoad(load, exp, active, w), load, exp, active);
  }

  lemma ScaleExact(load: real, exp: real, active: real)
    ensures 2048.0 * Exact(load, exp / 2048.0, active) == load * exp + active * (2048.0 - exp)
  {
  }

  /** n cycles, one by one. */
  function CalcLoads(load: nat, exp: nat, active: nat, n: nat, w: Width): nat
    requires exp <= FIXED_1
  {
    if n == 0 then load else CalcLoad(CalcLoads(load, exp, active, n - 1, w), exp, active, w)
  }

  lemma {:induction false} CalcLoadsBetween(load: nat, exp: nat, active: nat, n: nat, w: Width)
    requires exp <= FIXED_1 && Small(load, w) && Small(active, w)
    ensures var r := CalcLoads(load, exp, active, n, w); if load < active then load <= r <= active else active <= r <= load
  {
    if n > 0 {
      CalcLoadsBetween(load, exp, active, n - 1, w);
      CalcLoadBetween(CalcLoads(load, exp, active, n - 1, w), exp, active, w);
    }
  }

  lemma Difference(x: real, y: real, e: real)
    ensures x * e - y * e == (x - y) * e
  {
  }

  lemma ScaledApart(u: real, v: real, e: real, d: real)
    requires 0.0 <= e <= 1.0 && Abs(u - v) <= d
    ensures Abs(u * e - v * e) <= d
  {
    Difference(u, v, e);
    ScaledDown(u - v, e, d);
  }

  lemma ShiftedApart(x: real, y: real, u: real, v: real, e: real, active: real, d: real)
    requires 0.0 <= e <= 1.0 && Abs(u - v) <= d
    requires x == active + u * e && y == active + v * e
    ensures Abs(x - y) <= d
  {
    ScaledApart(u, v, e, d);
  }

  lemma ExactMoves(x: real, y: real, e: real, active: real, d: real)
    requires 0.0 <= e <= 1.0 && Abs(x - y) <= d
    ensures Abs(Exact(x, e, active) - Exact(y, e, active)) <= d
  {
    ShiftedApart(Exact(x, e, active), Exact(y, e, active), x - active, y - active, e, active, d);
  }

  lemma ExactTwice(load: real, e: real, p: real, pe: real, active: real)
    requires pe == e * p
    ensures Exact(Exact(load, p, active), e, active) == Exact(load, pe, active)
  {
    var d := load - active;
    assert Exact(load, p, active) - active == d * p;
    assert (d * p) * e == d * (e * p);
  }

  /** One more cycle adds half a unit to the error. */
  lemma CycleError(r: real, next: real, load: real, e: real, p: real, pe: real, active: real, d: real)
    requires 0.0 <= e <= 1.0 && pe == e * p
    requires Abs(r - Exact(load, p, active)) <= d && Abs(next - Exact(r, e, active)) <= 0.5
    ensures Abs(next - Exact(load, pe, active)) <= d + 0.5
  {
    ExactTwice(load, e, p, pe, active);
    ExactMoves(r, Exact(load, p, active), e, active, d);
  }

  /** `r` is within n/2 of the load after n exact cycles. */
  ghost predicate Tracks(r: nat, load: nat, exp: nat, active: nat, n: nat) {
    Abs(r as real - Exact(load as real, Pow(Val(exp, FIXED_1), n), active as real)) <= n as real / 2.0
  }

  lemma TracksNext(r: nat, next: nat, load: nat, exp: nat, active: nat, n: nat)
    requires exp <= FIXED_1 && Tracks(r, load, exp, active, n)
    requires Abs(next as real - Exact(r as real, Val(exp, FIXED_1), active as real)) <= 0.5
    ensures Tracks(next, load, exp, active, n + 1)
  {
    var e := Val(exp, FIXED_1);
    ValUnit(exp, FIXED_1);
    CycleError(r as real, next as real, load as real, e, Pow(e, n), Pow(e, n + 1), active as real, n as real / 2.0);
  }

  lemma {:induction false} CalcLoadsTracks(load: nat, exp: nat, active: nat, n: nat, w: Width)
    requires exp <= FIXED_1 && Small(load, w) && Small(active, w)
    ensures Tracks(CalcLoads(load, exp, active, n, w), load, exp, active, n)
  {
    if n > 0 {
      var r := CalcLoads(load, exp, active, n - 1, w);
      CalcLoadsTracks(load, exp, active, n - 1, w);
      CalcLoadsBetween(load, exp, active, n - 1, w);
      CalcLoadError(r, exp, active, w);
      TracksNext(r, CalcLoad(r, exp, active, w), load, exp, active, n - 1);
    }
  }

  lemma ExactPower(load: real, p: real, q: real, active: real, d: real)
    requires Abs(p - q) <= d
    ensures Abs(Exact(load, p, active) - Exact(load, q, active)) <= Abs(load - active) * d
  {
    var x, y := load - active, p - q;
    assert Exact(load, p, active) - Exact(load, q, active) == x * y;
    RealMul(Abs(x), Abs(y), d);
    assert Abs(x * y) == Abs(x) * Abs(y);
  }

  /** The error of all the cycles at once and of the cycles one by one add up. */
  lemma ErrorsApart(r: real, s: real, load: real, active: real, p: real, q: real, n: nat, d: real)
    requires Abs(r - Exact(load, p, active)) <= 0.5
    requires Abs(s - Exact(load, q, active)) <= n as real / 2.0
    requires Abs(p - q) <= d
    ensures Abs(r - s) <= (n + 1) as real / 2.0 + Abs(load - active) * d
  {
    ExactPower(load, p, q, active, d);
  }

  /** `r` and `s` are as close as n missed cycles at once and one by one are. */
  ghost predicate Close(r: nat, s: nat, load: nat, active: nat, n: nat) {
    Abs(r as real - s as real) <= (n + 1) as real / 2.0 + Abs(load as real - active as real) * Halves(n, FIXED_1)
  }

  lemma AtOnceIsClose(r: nat, s: nat, load: nat, exp: nat, active: nat, p: nat, n: nat)
    requires Within(p, Pow(Val(exp, FIXED_1), n), Halves(n, FIXED_1), FIXED_1)
    requires Abs(r as real - Exact(load as real, Val(p, FIXED_1), active as real)) <= 0.5
    requires Tracks(s, load, exp, active, n)
    ensures Close(r, s, load, active, n)
  {
    ErrorsApart(r as real, s as real, load as real, active as real,
                Val(p, FIXED_1), Pow(Val(exp, FIXED_1), n), n, Halves(n, FIXED_1));
  }

  /** n missed cycles at once: between the two loads, and close to the cycles one by one. */
  method CalcLoadN(load: nat, exp: nat, active: nat, n: nat, w: Width) returns (r: nat)
    requires exp <= FIXED_1 && Small(load, w) && Small(active, w)
    ensures if load < active then load <= r <= active else active <= r <= load
    ensures Close(r, CalcLoads(load, exp, active, n, w), load, active, n)
  {
    assert Pow2(FSHIFT) == FIXED_1 by { assert Pow2(5) == 32; }
    var p := FixedPowerInt(exp, FSHIFT, n, w);
    r := CalcLoad(load, p, active, w);
    CalcLoadBetween(load, p, active, w);
    CalcLoadError(load, p, active, w);
    CalcLoadsTracks(load, exp, active, n, w);
    AtOnceIsClose(r, CalcLoads(load, exp, active, n, w), load, exp, active, p, n);
  }
}
