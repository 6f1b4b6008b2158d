/** What an Elo result is worth (server/internal/game/elo.go): the move is the nearest integer to the
    Elo formula's, upsets are worth more than expected wins, and a lead of 400 points is worth ten to
    one. */
module EloScale {
  import opened Elo

  // ---- powers of ten with whole-number exponents over 400 ----

  lemma {:induction false} PowGrows(a: real, b: real, n: nat)
    requires 0.0 < a < b && n > 0
    ensures Pow(a, n) < Pow(b, n)
  {
    if n > 1 {
      PowGrows(a, b, n - 1);
      PowPositive(a, n - 1);
      Larger(a, b, Pow(a, n - 1), Pow(b, n - 1));
    } else {
      assert Pow(a, 1) == a * Pow(a, 0) && Pow(b, 1) == b * Pow(b, 0);
    }
  }

  lemma Larger(a: real, b: real, x: real, y: real)
    requires 0.0 < a < b && 0.0 < x < y
    ensures a * x < b * y
  {
    assert a * x < b * x && b * x < b * y;
  }

  lemma RootGrows(a: real, b: real, n: nat)
    requires a > 0.0 && b > 0.0 && n > 0 && Pow(a, n) < Pow(b, n)
    ensures a < b
  {
    if a > b { PowGrows(b, a, n); }
  }

  lemma {:induction false} TenGrows(d: nat, e: nat)
    requires d < e
    ensures 0.0 < Pow(10.0, d) < Pow(10.0, e)
  {
    PowPositive(10.0, d);
    PowPositive(10.0, e - 1);
    if d < e - 1 { TenGrows(d, e - 1); }
    assert Pow(10.0, e) == 10.0 * Pow(10.0, e - 1);
  }

  lemma RootsGrowUp(v: real, w: real, d: nat, e: nat, q: nat)
    requires IsTenRoot(v, d, q) && IsTenRoot(w, e, q) && d < e
    ensures v < w
  {
    TenGrows(d, e);
    RootGrows(v, w, q);
  }

  lemma SmallerReciprocal(v: real, w: real, x: real, y: real)
    requires v > 0.0 && w > 0.0 && x > 0.0 && y > 0.0 && v * x == 1.0 && w * y == 1.0 && y < x
    ensures v < w
  {
    assert w * y < w * x;
    assert (w - v) * x > 0.0;
    PositiveFactor(w - v, x);
  }

  lemma PositiveFactor(a: real, x: real)
    requires x > 0.0 && a * x > 0.0
    ensures a > 0.0
  {
  }

  lemma BelowOne(v: real, d: int, q: nat)
    requires IsTenRoot(v, d, q) && d < 0
    ensures v < 1.0
  {
    PowOne(q);
    RootsGrowUp(1.0, 1.0 / v, 0, -d, q);
    SmallerReciprocal(v, 1.0, 1.0 / v, 1.0);
  }

  lemma AtLeastOne(w: real, e: nat, q: nat)
    requires IsTenRoot(w, e, q)
    ensures w >= 1.0
  {
    PowOne(q);
    if e == 0 { PowIsOne(w, q); } else { RootsGrowUp(1.0, w, 0, e, q); }
  }

  lemma RootsGrow(v: real, w: real, d: int, e: int, q: nat)
    requires IsTenRoot(v, d, q) && IsTenRoot(w, e, q) && d < e
    ensures v < w
  {
    if d >= 0 {
      RootsGrowUp(v, w, d, e, q);
    } else if e >= 0 {
      BelowOne(v, d, q);
      AtLeastOne(w, e, q);
    } else {
      RootsGrowUp(1.0 / w, 1.0 / v, -e, -d, q);
      SmallerReciprocal(v, w, 1.0 / v, 1.0 / w);
    }
  }

  /** A larger difference has a larger power. */
  lemma CurveGrows(curve: Curve, d: int, e: int)
    requires IsCurve(curve) && d < e
    ensures 0.0 < curve(d) < curve(e)
  {
    assert IsTenToThe(curve(d), d) && IsTenToThe(curve(e), e);
    RootsGrow(curve(d), curve(e), d, e, 400);
  }

  lemma CurveAtZero(curve: Curve)
    requires IsCurve(curve)
    ensures curve(0) == 1.0
  {
    assert IsTenToThe(curve(0), 0);
    PowIsOne(curve(0), 400);
  }

  /** 400 points are a factor of ten. */
  lemma CurveAt400(curve: Curve)
    requires IsCurve(curve)
    ensures curve(400) == 10.0 && curve(-400) == 0.1
  {
    assert IsTenToThe(curve(400), 400) && IsTenToThe(curve(-400), -400);
    EqualPowers(curve(400), 10.0, 400);
    ReciprocalRoots(curve(400), curve(-400), 400, 400);
  }

  // ---- the move ----

  /** A's move, for a score sa. */
  function Gain(curve: Curve, ra: int, rb: int, sa: real): int
    requires curve(rb - ra) > 0.0
  {
    ComputeElo(curve, ra, rb, sa).0 - ra
  }

  /** The move is the integer nearest to 32 times what was scored beyond the expectation 1/(1+w),
      where w is 10 to the (rb - ra)/400. */
  lemma MoveIsNearest(curve: Curve, ra: int, rb: int, sa: real, w: real)
    requires IsCurve(curve) && IsScore(sa) && IsTenToThe(w, rb - ra)
    ensures curve(rb - ra) > 0.0
    ensures var move := (ComputeElo(curve, ra, rb, sa).0 - ra) as real;
            -0.5 <= move - 32.0 * (sa - 1.0 / (1.0 + w)) <= 0.5
  {
    var d := rb - ra;
    assert IsTenToThe(curve(d), d);
    SameRoot(curve(d), w, d);
    MoveIsNotHalf(curve, ra, rb, sa);
    RoundShift(ra, K * (sa - ExpectedScore(curve, ra, rb)));
  }

  lemma SameRoot(v: real, w: real, d: int)
    requires IsTenToThe(v, d) && IsTenToThe(w, d)
    ensures v == w
  {
    if d >= 0 {
      EqualPowers(v, w, 400);
    } else {
      EqualPowers(1.0 / v, 1.0 / w, 400);
      assert v * (1.0 / v) == 1.0 && w * (1.0 / w) == 1.0;
      assert v * (1.0 / w) == 1.0;
      assert v * (1.0 / w) * w == w;
    }
  }

  /** The expected scores sum to one, an equal expects one half, a lead of 400 points expects ten
      elevenths, and a stronger opponent never raises the expectation. */
  lemma ExpectedScores(curve: Curve, ra: int, rb: int, rc: int)
    requires IsCurve(curve) && rb <= rc
    ensures curve(rb - ra) > 0.0 && curve(rc - ra) > 0.0 && curve(ra - rb) > 0.0
    ensures ExpectedScore(curve, ra, rb) + ExpectedScore(curve, rb, ra) == 1.0
    ensures ExpectedScore(curve, ra, rc) <= ExpectedScore(curve, ra, rb)
    ensures rb == ra ==> ExpectedScore(curve, ra, rb) == 0.5
    ensures rb == ra - 400 ==> ExpectedScore(curve, ra, rb) == 10.0 / 11.0
  {
    ExpectedScoresSumToOne(curve, ra, rb);
    assert IsTenToThe(curve(rc - ra), rc - ra);
    if rb < rc {
      CurveGrows(curve, rb - ra, rc - ra);
      ShareGrows(curve(rb - ra), curve(rc - ra));
    }
    CurveAtZero(curve);
    CurveAt400(curve);
    assert 1.0 / (1.0 + 0.1) == 10.0 / 11.0;
  }

  // the unrounded move of a win is 32 w / (1 + w)
  lemma NearestWin(curve: Curve, ra: int, rb: int)
    requires IsCurve(curve)
    ensures curve(rb - ra) > 0.0
    ensures var w, g := curve(rb - ra), Gain(curve, ra, rb, 1.0) as real;
            -0.5 <= g - 32.0 * (1.0 - 1.0 / (1.0 + w)) <= 0.5
  {
    assert IsTenToThe(curve(rb - ra), rb - ra);
    MoveIsNearest(curve, ra, rb, 1.0, curve(rb - ra));
  }

  lemma ShareGrows(v: real, w: real)
    requires 0.0 < v <= w
    ensures 1.0 / (1.0 + w) <= 1.0 / (1.0 + v)
  {
    if v < w {
      SmallerReciprocal(1.0 / (1.0 + w), 1.0 / (1.0 + v), 1.0 + w, 1.0 + v);
    }
  }

  /** A win over an equal gains 16. */
  lemma EqualsWin16(curve: Curve, r: int)
    requires IsCurve(curve)
    ensures curve(r - r) > 0.0 && ComputeElo(curve, r, r, 1.0) == (r + 16, r - 16)
    ensures ComputeElo(curve, r, r, 0.5) == (r, r)
  {
    CurveAtZero(curve);
    HalfMoves(curve, r);
  }

  lemma HalfMoves(curve: Curve, r: int)
    requires curve(0) == 1.0
    ensures ComputeElo(curve, r, r, 1.0) == (r + 16, r - 16)
    ensures ComputeElo(curve, r, r, 0.5) == (r, r)
  {
    assert ExpectedScore(curve, r, r) == 0.5 by { assert r - r == 0; }
    assert r as real + 16.0 == (r + 16) as real && r as real - 16.0 == (r - 16) as real;
    WholeRounds(r + 16);
    WholeRounds(r - 16);
    WholeRounds(r);
  }

  lemma WholeRounds(n: int)
    ensures Round(n as real) == n
  {
  }

  /** The higher the opponent's rating, the more a win gains. */
  lemma UpsetsGainMore(curve: Curve, ra: int, rb: int, rc: int)
    requires IsCurve(curve) && rb <= rc
    ensures curve(rb - ra) > 0.0 && curve(rc - ra) > 0.0
    ensures ComputeElo(curve, ra, rb, 1.0).0 <= ComputeElo(curve, ra, rc, 1.0).0
  {
    NearestWin(curve, ra, rb);
    NearestWin(curve, ra, rc);
    MoveIsNotHalf(curve, ra, rb, 1.0);
    MoveIsNotHalf(curve, ra, rc, 1.0);
    RoundShift(ra, K * (1.0 - ExpectedScore(curve, ra, rb)));
    RoundShift(ra, K * (1.0 - ExpectedScore(curve, ra, rc)));
    if rb < rc {
      CurveGrows(curve, rb - ra, rc - ra);
      ShareGrows(curve(rb - ra), curve(rc - ra));
      RoundGrows(K * (1.0 - ExpectedScore(curve, ra, rb)), K * (1.0 - ExpectedScore(curve, ra, rc)));
    }
  }

  lemma RoundGrows(x: real, y: real)
    requires x <= y
    ensures Round(x) <= Round(y)
  {
    if x < 0.0 <= y {
      assert 0.5 - x > 0.0;
    }
  }

  /** A favourite's win gains at most 16, an underdog's at least 16. */
  lemma FavouritesGainLess(curve: Curve, ra: int, rb: int)
    requires IsCurve(curve)
    ensures curve(rb - ra) > 0.0
    ensures ra >= rb ==> ComputeElo(curve, ra, rb, 1.0).0 <= ra + 16
    ensures ra <= rb ==> ComputeElo(curve, ra, rb, 1.0).0 >= ra + 16
  {
    EqualsWin16(curve, ra);
    assert IsTenToThe(curve(rb - ra), rb - ra);
    if ra >= rb { UpsetsGainMore(curve, ra, rb, ra); }
    if ra <= rb { UpsetsGainMore(curve, ra, ra, rb); }
  }

  /** A tie never gains the favourite anything, nor costs the underdog. */
  lemma TiesFavourTheLower(curve: Curve, ra: int, rb: int)
    requires IsCurve(curve)
    ensures curve(rb - ra) > 0.0
    ensures ra >= rb ==> ComputeElo(curve, ra, rb, 0.5).0 <= ra
    ensures ra <= rb ==> ComputeElo(curve, ra, rb, 0.5).0 >= ra
  {
    var w := curve(rb - ra);
    assert IsTenToThe(w, rb - ra);
    CurveAtZero(curve);
    MoveIsNearest(curve, ra, rb, 0.5, w);
    if ra == rb {
      EqualsWin16(curve, ra);
    } else if ra > rb {
      CurveGrows(curve, rb - ra, 0);
      ShareGrows(w, 1.0);
    } else {
      CurveGrows(curve, 0, rb - ra);
      ShareGrows(1.0, w);
    }
  }

  /** With a lead of 400 points the favourite gains 3 by a win and loses 29 by a loss. */
  lemma LeadOf400(curve: Curve, r: int)
    requires IsCurve(curve)
    ensures curve(r - (r + 400)) > 0.0
    ensures ComputeElo(curve, r + 400, r, 1.0) == (r + 403, r - 3)
    ensures ComputeElo(curve, r + 400, r, 0.0) == (r + 371, r + 29)
  {
    CurveAt400(curve);
    assert IsTenToThe(curve(-400), -400);
    FavouriteMoves(curve, r + 400, r);
    EloZeroSum(curve, r + 400, r, 1.0);
    EloZeroSum(curve, r + 400, r, 0.0);
  }

  lemma FavouriteMoves(curve: Curve, ra: int, rb: int)
    requires IsCurve(curve) && rb - ra == -400 && IsTenToThe(0.1, -400)
    ensures curve(rb - ra) > 0.0
    ensures ComputeElo(curve, ra, rb, 1.0).0 == ra + 3 && ComputeElo(curve, ra, rb, 0.0).0 == ra - 29
  {
    MoveIsNearest(curve, ra, rb, 1.0, 0.1);
    MoveIsNearest(curve, ra, rb, 0.0, 0.1);
    NearestThirtySeconds(ComputeElo(curve, ra, rb, 1.0).0 - ra, ComputeElo(curve, ra, rb, 0.0).0 - ra);
  }

  // ten elevenths of 32 are 29.09
  lemma NearestThirtySeconds(win: int, loss: int)
    requires -0.5 <= win as real - 32.0 * (1.0 - 1.0 / (1.0 + 0.1)) <= 0.5
    requires -0.5 <= loss as real - 32.0 * (0.0 - 1.0 / (1.0 + 0.1)) <= 0.5
    ensures win == 3 && loss == -29
  {
    assert 1.0 / (1.0 + 0.1) * 11.0 == 10.0;
  }
}
