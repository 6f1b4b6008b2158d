/** Elo ratings (server/internal/game/elo.go), over the reals.

    `math.Pow(10, d/400)` is the positive real whose 400th power is 10 to the d; a rating
    curve supplies one such value per rating difference.  Nothing else about it is used. */
module Elo {

  // eloK
  const K := 32.0

  const SCORE_WIN := 1.0
  const SCORE_LOSS := 0.0
  const SCORE_TIE := 0.5

  predicate IsScore(sa: real) {
    sa == SCORE_WIN || sa == SCORE_LOSS || sa == SCORE_TIE
  }

  function Pow(b: real, n: nat): real {
    if n == 0 then 1.0 else b * Pow(b, n - 1)
  }

  function IntPow(b: int, n: nat): int {
    if n == 0 then 1 else b * IntPow(b, n - 1)
  }

  /** `w` is 10 raised to d/q. */
  ghost predicate IsTenRoot(w: real, d: int, q: nat) {
    w > 0.0 && q > 0 &&
    if d >= 0 then Pow(w, q) == Pow(10.0, d) else Pow(1.0 / w, q) == Pow(10.0, -d)
  }

  /** `w` is 10 raised to d/400. */
  ghost predicate IsTenToThe(w: real, d: int) {
    IsTenRoot(w, d, 400)
  }

  /** A curve gives 10^(d/400) for every rating difference d. */
  type Curve = int -> real

  ghost predicate IsCurve(curve: Curve) {
    forall d :: IsTenToThe(curve(d), d)
  }

  /** Go's `math.Round`: the nearest integer, halves away from zero. */
  function Round(x: real): (r: int)
    ensures -0.5 <= x - r as real <= 0.5
  {
    if x >= 0.0 then (x + 0.5).Floor else -(0.5 - x).Floor
  }

  function ExpectedScore(curve: Curve, ratingA: int, ratingB: int): real
    requires curve(ratingB - ratingA) > 0.0
  {
    1.0 / (1.0 + curve(ratingB - ratingA))
  }

  function ComputeElo(curve: Curve, ratingA: int, ratingB: int, sa: real): (int, int)
    requires curve(ratingB - ratingA) > 0.0
  {
    var ea := ExpectedScore(curve, ratingA, ratingB);
    var eb := 1.0 - ea;
    (Round(ratingA as real + K * (sa - ea)), Round(ratingB as real + K * ((1.0 - sa) - eb)))
  }

  // ---- rounding ----

  /** x is a whole number plus one half. */
  predicate IsHalfInteger(x: real) {
    x - 0.5 == (x - 0.5).Floor as real
  }

  /** Away from a half, rounding rating + x adds the same integer to every rating. */
  lemma RoundShift(r: int, x: real)
    requires !IsHalfInteger(x)
    ensures Round(r as real + x) == r + Round(x)
  {
    var k := Round(x);
    var m := Round(r as real + x);
    assert x - k as real == 0.5 ==> (x - 0.5).Floor == k;
    assert x - k as real == -0.5 ==> (x - 0.5).Floor == k - 1;
    assert -1.0 < (m - r - k) as real < 1.0;
  }

  lemma RoundNegates(x: real)
    ensures Round(-x) == -Round(x)
  {
  }

  /** Rounding the two new ratings conserves their sum exactly when the move is not a
      half-integer, or the two moved ratings lie on opposite sides of zero. */
  lemma RoundingConservesIff(ra: int, rb: int, x: real)
    ensures Round(ra as real + x) + Round(rb as real - x) == ra + rb
       <==> !IsHalfInteger(x) || ((ra as real + x > 0.0) != (rb as real - x > 0.0))
  {
    if !IsHalfInteger(x) {
      RoundShift(ra, x);
      RoundNegates(x);
      NegatedHalf(x);
      RoundShift(rb, -x);
    } else {
      var j := (x - 0.5).Floor;
      assert ra as real + x == (ra + j) as real + 0.5;
      assert rb as real - x == (rb - j - 1) as real + 0.5;
      HalfRounds(ra + j);
      HalfRounds(rb - j - 1);
    }
  }

  lemma NegatedHalf(x: real)
    requires !IsHalfInteger(x)
    ensures !IsHalfInteger(-x)
  {
    var j := (-x - 0.5).Floor;
    assert IsHalfInteger(-x) ==> x - 0.5 == (-j - 1) as real;
  }

  lemma HalfRounds(n: int)
    ensures Round(n as real + 0.5) == if n >= 0 then n + 1 else n
  {
    if n >= 0 {
      assert n as real + 0.5 + 0.5 == (n + 1) as real;
    } else {
      assert 0.5 - (n as real + 0.5) == (-n) as real;
    }
  }

  // ---- powers ----

  lemma {:induction false} PowPositive(b: real, n: nat)
    requires b > 0.0
    ensures Pow(b, n) > 0.0
  {
    if n > 0 { PowPositive(b, n - 1); }
  }

  lemma {:induction false} PowProduct(a: real, b: real, n: nat)
    ensures Pow(a * b, n) == Pow(a, n) * Pow(b, n)
  {
    if n > 0 {
      PowProduct(a, b, n - 1);
      var p, q := Pow(a, n - 1), Pow(b, n - 1);
      assert (a * b) * (p * q) == (a * p) * (b * q);
    }
  }

  lemma {:induction false} PowOne(n: nat)
    ensures Pow(1.0, n) == 1.0
  {
    if n > 0 { PowOne(n - 1); }
  }

  lemma {:induction false} PowAboveOne(b: real, n: nat)
    requires b > 1.0 && n > 0
    ensures Pow(b, n) > 1.0
  {
    if n > 1 {
      PowAboveOne(b, n - 1);
      assert b * Pow(b, n - 1) > Pow(b, n - 1);
    } else {
      assert Pow(b, 1) == b * Pow(b, 0);
    }
  }

  lemma {:induction false} PowBelowOne(b: real, n: nat)
    requires 0.0 < b < 1.0 && n > 0
    ensures Pow(b, n) < 1.0
  {
    if n > 1 {
      PowBelowOne(b, n - 1);
      PowPositive(b, n - 1);
      assert b * Pow(b, n - 1) < Pow(b, n - 1);
    } else {
      assert Pow(b, 1) == b * Pow(b, 0);
    }
  }

  lemma PowIsOne(b: real, n: nat)
    requires b > 0.0 && n > 0 && Pow(b, n) == 1.0
    ensures b == 1.0
  {
    if b > 1.0 { PowAboveOne(b, n); }
    if b < 1.0 { PowBelowOne(b, n); }
  }

  lemma {:induction false} IntPowIsPow(b: int, n: nat)
    ensures IntPow(b, n) as real == Pow(b as real, n)
  {
    if n > 0 {
      IntPowIsPow(b, n - 1);
      assert (b * IntPow(b, n - 1)) as real == b as real * IntPow(b, n - 1) as real;
    }
  }

  lemma {:induction false} OddPower(b: int, n: nat)
    requires b % 2 == 1
    ensures IntPow(b, n) % 2 == 1
  {
    if n > 0 {
      OddPower(b, n - 1);
      OddTimesOdd(b, IntPow(b, n - 1));
    }
  }

  lemma OddTimesOdd(a: int, b: int)
    requires a % 2 == 1 && b % 2 == 1
    ensures (a * b) % 2 == 1
  {
    var i, j := a / 2, b / 2;
    assert a * b == 2 * (2 * i * j + i + j) + 1;
  }

  lemma TenPowerEven(d: nat, c: int)
    requires d > 0
    ensures (IntPow(10, d) * c) % 2 == 0
  {
    var h := IntPow(10, d - 1);
    assert IntPow(10, d) * c == 2 * (5 * h * c);
  }

  // ---- no expected score lands on a half-integer move ----

  lemma RatioPower(w: real, n: int, m: int, q: nat)
    requires w * n as real == m as real
    ensures Pow(w, q) * IntPow(n, q) as real == IntPow(m, q) as real
  {
    PowProduct(w, n as real, q);
    IntPowIsPow(n, q);
    IntPowIsPow(m, q);
  }

  /** An odd n with w = (64 - n)/n would make w the ratio of two odd numbers, and no power of
      ten other than 1 has a root of that form. */
  lemma NeverOdd(w: real, d: int, q: nat, n: int)
    requires IsTenRoot(w, d, q)
    requires w * n as real == (64 - n) as real
    ensures n % 2 == 0
  {
    if d == 0 {
      PowIsOne(w, q);
      assert n as real == (64 - n) as real;
    } else if n % 2 == 1 {
      OddRatio(w, d, q, n, 64 - n);
    }
  }

  lemma OddRatio(w: real, d: int, q: nat, n: int, m: int)
    requires w > 0.0 && d != 0 && n % 2 == 1 && m % 2 == 1
    requires w * n as real == m as real
    ensures !IsTenRoot(w, d, q)
  {
    if d > 0 {
      OddPowerRatio(w, d, q, n, m);
    } else {
      assert (1.0 / w) * m as real == n as real by { assert (1.0 / w) * (w * n as real) == n as real; }
      OddPowerRatio(1.0 / w, -d, q, m, n);
    }
  }

  lemma OddPowerRatio(w: real, d: nat, q: nat, n: int, m: int)
    requires d > 0 && n % 2 == 1 && m % 2 == 1
    requires w * n as real == m as real
    ensures Pow(w, q) != Pow(10.0, d)
  {
    RatioPower(w, n, m, q);
    OddPower(n, q);
    OddPower(m, q);
    if Pow(w, q) == Pow(10.0, d) {
      IntPowIsPow(10, d);
      IntProduct(IntPow(10, d), IntPow(n, q), IntPow(m, q));
      TenPowerEven(d, IntPow(n, q));
      assert false;
    }
  }

  lemma ScoreRatio(w: real, n: int)
    requires w > 0.0 && 64.0 * (1.0 / (1.0 + w)) == n as real
    ensures w * n as real == (64 - n) as real
  {
    var e := 1.0 / (1.0 + w);
    assert e * (1.0 + w) == 1.0;
    assert e + w * e == 1.0;
    assert w * (64.0 * e) == 64.0 * (w * e);
  }

  lemma IntProduct(a: int, b: int, c: int)
    requires a as real * b as real == c as real
    ensures a * b == c
  {
    assert (a * b) as real == a as real * b as real;
  }

  lemma HalfMoveIsOdd(sa: real, e: real) returns (n: int)
    requires IsScore(sa) && IsHalfInteger(K * (sa - e))
    ensures 64.0 * e == n as real && n % 2 == 1
  {
    var x := K * (sa - e);
    var j := (x - 0.5).Floor;
    assert x == K * sa - K * e;
    n := (if sa == SCORE_WIN then 64 else if sa == SCORE_TIE then 32 else 0) - 2 * j - 1;
  }

  lemma MoveIsNotHalf(curve: Curve, ra: int, rb: int, sa: real)
    requires IsCurve(curve) && IsScore(sa)
    ensures curve(rb - ra) > 0.0
    ensures !IsHalfInteger(K * (sa - ExpectedScore(curve, ra, rb)))
  {
    var d := rb - ra;
    assert IsTenToThe(curve(d), d);
    var e := ExpectedScore(curve, ra, rb);
    if IsHalfInteger(K * (sa - e)) {
      var n := HalfMoveIsOdd(sa, e);
      ScoreRatio(curve(d), n);
      NeverOdd(curve(d), d, 400, n);
      assert false;
    }
  }

  // ---- main results ----

  /** For all ratings and every outcome: the two deltas are opposite integers of size at most
      32, and the winner never loses points. */
  lemma EloZeroSum(curve: Curve, ra: int, rb: int, sa: real)
    requires IsCurve(curve) && IsScore(sa)
    ensures curve(rb - ra) > 0.0
    ensures var (a, b) := ComputeElo(curve, ra, rb, sa);
            && a - ra == -(b - rb)
            && -32 <= a - ra <= 32
            && (sa == SCORE_WIN ==> a >= ra)
            && (sa == SCORE_LOSS ==> a <= ra)
  {
    MoveIsNotHalf(curve, ra, rb, sa);
    var e := ExpectedScore(curve, ra, rb);
    var x := K * (sa - e);
    assert IsTenToThe(curve(rb - ra), rb - ra);
    assert 0.0 < e < 1.0;
    assert K * ((1.0 - sa) - (1.0 - e)) == -x;
    RoundingConservesIff(ra, rb, x);
    RoundShift(ra, x);
    assert -32.0 < x < 32.0;
    assert sa == SCORE_WIN ==> x > 0.0;
    assert sa == SCORE_LOSS ==> x < 0.0;
  }

  /** The two players' expected scores add up to one. */
  lemma ExpectedScoresSumToOne(curve: Curve, ra: int, rb: int)
    requires IsCurve(curve)
    ensures curve(rb - ra) > 0.0 && curve(ra - rb) > 0.0
    ensures ExpectedScore(curve, ra, rb) + ExpectedScore(curve, rb, ra) == 1.0
  {
    var d := rb - ra;
    assert IsTenToThe(curve(d), d) && IsTenToThe(curve(-d), -d);
    var v, w := curve(d), curve(-d);
    ReciprocalRoots(v, w, d, 400);
    ReciprocalScores(v, w);
    assert ra - rb == -d;
  }

  lemma ReciprocalRoots(v: real, w: real, d: int, q: nat)
    requires IsTenRoot(v, d, q) && IsTenRoot(w, -d, q)
    ensures v * w == 1.0
    decreases d < 0
  {
    if d < 0 {
      ReciprocalRoots(w, v, -d, q);
    } else {
      // v and 1/w have equal powers, so their quotient is one
      var u := 1.0 / w;
      assert Pow(u, q) == Pow(v, q) by {
        if d == 0 { PowIsOne(w, q); }
      }
      EqualPowers(v, u, q);
      assert w * u == 1.0;
    }
  }

  lemma CancelFactor(p: real, b: real)
    requires b > 0.0 && p * b == b
    ensures p == 1.0
  {
  }

  lemma PowFactor(a: real, r: real, b: real, q: nat)
    requires a == r * b
    ensures Pow(a, q) == Pow(r, q) * Pow(b, q)
  {
    PowProduct(r, b, q);
  }

  lemma EqualPowers(a: real, b: real, q: nat)
    requires a > 0.0 && b > 0.0 && q > 0 && Pow(a, q) == Pow(b, q)
    ensures a == b
  {
    var r := a / b;
    PowFactor(a, r, b, q);
    PowPositive(b, q);
    CancelFactor(Pow(r, q), Pow(b, q));
    PowIsOne(r, q);
  }

  lemma ReciprocalScores(v: real, w: real)
    requires v > 0.0 && w > 0.0 && v * w == 1.0
    ensures 1.0 / (1.0 + v) + 1.0 / (1.0 + w) == 1.0
  {
    assert (1.0 + v) * (1.0 + w) == (1.0 + v) + (1.0 + w);
    var p, q := 1.0 / (1.0 + v), 1.0 / (1.0 + w);
    assert p * (1.0 + v) == 1.0 && q * (1.0 + w) == 1.0;
    assert (p + q) * ((1.0 + v) * (1.0 + w)) == p * (1.0 + v) * (1.0 + w) + q * (1.0 + w) * (1.0 + v);
  }

  /** Calling either player A gives both the same new ratings. */
  lemma EloIsSymmetric(curve: Curve, ra: int, rb: int, sa: real)
    requires IsCurve(curve)
    ensures curve(rb - ra) > 0.0 && curve(ra - rb) > 0.0
    ensures ComputeElo(curve, ra, rb, sa).0 == ComputeElo(curve, rb, ra, 1.0 - sa).1
    ensures ComputeElo(curve, ra, rb, sa).1 == ComputeElo(curve, rb, ra, 1.0 - sa).0
  {
    ExpectedScoresSumToOne(curve, ra, rb);
  }
}
