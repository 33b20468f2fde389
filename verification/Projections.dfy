/** One null-space projection (exp1_math/inlp_runner.py, nullspace_projection), over
    exact reals. Products of reals are passed to lemmas under names of their own,
    which keeps nonlinear terms out of each other's way. */
module Projections {
  import opened LinearAlgebra

  const MIN_NORM_SQ: real := 0.000000000001

  /** The squared norm, clamped from below. */
  function Clamped(w: Vec): (c: real)
    ensures c >= MIN_NORM_SQ && c >= Dot(w, w)
    ensures c == Dot(w, w) <==> Dot(w, w) >= MIN_NORM_SQ
  {
    if Dot(w, w) < MIN_NORM_SQ then MIN_NORM_SQ else Dot(w, w)
  }

  /** k is the factor of w in the projection of a vector whose product with w is a. */
  predicate IsFactor(k: real, a: real, w: Vec) {
    k * Clamped(w) == -a
  }

  lemma FactorExists(a: real, w: Vec)
    ensures exists k :: IsFactor(k, a, w)
  {
    assert IsFactor(-a / Clamped(w), a, w);
  }

  ghost function Factor(a: real, w: Vec): real {
    FactorExists(a, w);
    var k :| IsFactor(k, a, w);
    k
  }

  lemma FactorIs(a: real, w: Vec)
    ensures Factor(a, w) * Clamped(w) == -a
  {
    assert IsFactor(Factor(a, w), a, w);
  }

  /** nullspace_projection: the identity minus the outer product of w with itself
      over the clamped squared norm. */
  function NullspaceProjection(w: Vec): (p: Mat)
    ensures IsMat(p, |w|, |w|)
  {
    seq(|w|, i requires 0 <= i < |w| =>
        seq(|w|, j requires 0 <= j < |w| => Unit(|w|, i)[j] - Quotient(w[i], w[j], Clamped(w))))
  }

  function Quotient(x: real, y: real, s: real): real
    requires s != 0.0
  {
    x * y / s
  }

  /** The same matrix by rows. */
  ghost function Removal(w: Vec): (p: Mat)
    ensures IsMat(p, |w|, |w|)
  {
    seq(|w|, i requires 0 <= i < |w| => AddScale(Unit(|w|, i), Factor(w[i], w), w))
  }

  lemma NullspaceIsRemoval(w: Vec)
    ensures NullspaceProjection(w) == Removal(w)
  {
    forall i, j | 0 <= i < |w| && 0 <= j < |w| ensures NullspaceProjection(w)[i][j] == Removal(w)[i][j] {
      SameEntry(w, i, j, Factor(w[i], w), w[i], w[j], Clamped(w), Quotient(w[i], w[j], Clamped(w)));
    }
    forall i | 0 <= i < |w| ensures NullspaceProjection(w)[i] == Removal(w)[i] {
    }
  }

  lemma SameEntry(w: Vec, i: nat, j: nat, k: real, x: real, y: real, c: real, q: real)
    requires i < |w| && j < |w| && x == w[i] && y == w[j] && c == Clamped(w) && k == Factor(x, w)
    requires q == Quotient(x, y, c)
    ensures AddScale(Unit(|w|, i), k, w)[j] == Unit(|w|, i)[j] - q
  {
    FactorIs(x, w);
    QuotientIs(x, y, c, k, q);
    AddScaleAt(Unit(|w|, i), k, w, j, Unit(|w|, i)[j], y, AddScale(Unit(|w|, i), k, w)[j]);
  }

  lemma QuotientIs(x: real, y: real, c: real, k: real, q: real)
    requires c != 0.0 && k * c == -x && q == Quotient(x, y, c)
    ensures q == -(k * y)
  {
    assert q * c == x * y;
    assert (q + k * y) * c == 0.0;
    ZeroProduct(q + k * y, c);
  }

  // ---------- what one projection does ----------

  /** h minus its component along w. */
  ghost function Project(h: Vec, w: Vec): (r: Vec)
    requires |h| == |w|
    ensures |r| == |h|
  {
    AddScale(h, Factor(Dot(h, w), w), w)
  }

  ghost predicate ProjectionRows(p: Mat, w: Vec) {
    IsMat(p, |w|, |w|) && forall i :: 0 <= i < |p| ==> p[i] == AddScale(Unit(|w|, i), Factor(w[i], w), w)
  }

  lemma {:induction false} ProjectPrefix(p: Mat, h: Vec, w: Vec, n: nat, k: real, dot: real)
    requires n <= |h| == |w| && ProjectionRows(p, w) && dot == Dot(h[..n], w[..n]) && k == Factor(dot, w)
    ensures VecMat(h[..n], p[..n], |w|) == AddScale(h[..n] + Zero(|w| - n), k, w)
  {
    if n == 0 {
      FactorOfZero(w, dot, k);
      assert AddScale(h[..0] + Zero(|w|), k, w) == Zero(|w|);
    } else {
      var m := n - 1;
      var dot' := Dot(h[..m], w[..m]);
      ProjectPrefix(p, h, w, m, Factor(dot', w), dot');
      RowStep(h, w, m, p[m], Factor(dot', w), Factor(w[m], w), k, dot', dot);
      PrefixStep(p, h, |w|, m, AddScale(h[..m] + Zero(|w| - m), Factor(dot', w), w),
                 AddScale(h[..n] + Zero(|w| - n), k, w));
    }
  }

  lemma RowStep(h: Vec, w: Vec, m: nat, row: Vec, k': real, r: real, k: real, dot': real, dot: real)
    requires m < |h| == |w| && dot' == Dot(h[..m], w[..m]) && dot == Dot(h[..m + 1], w[..m + 1])
    requires k' == Factor(dot', w) && r == Factor(w[m], w) && k == Factor(dot, w) && row == AddScale(Unit(|w|, m), r, w)
    ensures AddScale(AddScale(h[..m] + Zero(|w| - m), k', w), h[m], row)
              == AddScale(h[..m + 1] + Zero(|w| - m - 1), k, w)
  {
    PrefixFactors(h, w, m, k', r, k, dot', dot);
    ProjectStep(h, w, m, k', r, k);
  }

  lemma PrefixStep(p: Mat, h: Vec, d: nat, m: nat, prev: Vec, target: Vec)
    requires m < |h| == |p| && IsMat(p, |p|, d) && |prev| == d
    requires VecMat(h[..m], p[..m], d) == prev && AddScale(prev, h[m], p[m]) == target
    ensures VecMat(h[..m + 1], p[..m + 1], d) == target
  {
    assert h[..m + 1][..m] == h[..m] && p[..m + 1][..m] == p[..m];
    VecMatLast(h[..m + 1], p[..m + 1], d);
  }

  lemma FactorOfZero(w: Vec, dot: real, k: real)
    requires dot == 0.0 && k == Factor(dot, w)
    ensures k == 0.0
  {
    FactorIs(dot, w);
    FactorZero(k, Clamped(w));
  }

  lemma PrefixFactors(h: Vec, w: Vec, m: nat, k': real, r: real, k: real, dot': real, dot: real)
    requires m < |h| == |w| && dot' == Dot(h[..m], w[..m]) && dot == Dot(h[..m + 1], w[..m + 1])
    requires k' == Factor(dot', w) && r == Factor(w[m], w) && k == Factor(dot, w)
    ensures k == k' + h[m] * r
  {
    DotPrefix(h, w, m, dot', h[m], w[m], dot);
    FactorsAdd(w, dot', h[m], w[m], dot, k', r, k);
  }

  lemma DotPrefix(h: Vec, w: Vec, m: nat, dot': real, a: real, b: real, dot: real)
    requires m < |h| == |w| && dot' == Dot(h[..m], w[..m]) && dot == Dot(h[..m + 1], w[..m + 1]) && a == h[m]
    requires b == w[m]
    ensures dot == dot' + a * b
  {
    assert h[..m + 1][..m] == h[..m] && w[..m + 1][..m] == w[..m];
  }

  lemma FactorsAdd(w: Vec, dot': real, a: real, b: real, dot: real, k': real, r: real, k: real)
    requires dot == dot' + a * b && k' == Factor(dot', w) && r == Factor(b, w) && k == Factor(dot, w)
    ensures k == k' + a * r
  {
    FactorIs(dot', w);
    FactorIs(b, w);
    FactorIs(dot, w);
    AddFactors(k', r, k, Clamped(w), dot', a, b, dot);
  }

  lemma FactorZero(k: real, c: real)
    requires c > 0.0 && k * c == 0.0
    ensures k == 0.0
  {
  }

  lemma AddFactors(k': real, r: real, k: real, c: real, dot': real, a: real, b: real, dot: real)
    requires c > 0.0 && k' * c == -dot' && r * c == -b && k * c == -dot && dot == dot' + a * b
    ensures k == k' + a * r
  {
    assert (a * r) * c == a * (r * c);
    assert (k - (k' + a * r)) * c == 0.0;
    FactorZero(k - (k' + a * r), c);
  }

  lemma ProjectStep(h: Vec, w: Vec, m: nat, k': real, r: real, k: real)
    requires m < |h| == |w| && k == k' + h[m] * r
    ensures AddScale(AddScale(h[..m] + Zero(|w| - m), k', w), h[m], AddScale(Unit(|w|, m), r, w))
            == AddScale(h[..m + 1] + Zero(|w| - m - 1), k, w)
  {
    var before, after := h[..m] + Zero(|w| - m), h[..m + 1] + Zero(|w| - m - 1);
    forall i | 0 <= i < |w|
      ensures AddScale(AddScale(before, k', w), h[m], AddScale(Unit(|w|, m), r, w))[i] == AddScale(after, k, w)[i] {
      var u := Unit(|w|, m)[i];
      assert after[i] == before[i] + (if i == m then h[m] else 0.0);
      Regroup(before[i], k', h[m], u, r, k, w[i]);
    }
  }

  lemma Regroup(x: real, k': real, a: real, u: real, r: real, k: real, w: real)
    requires k == k' + a * r && (u == 0.0 || u == 1.0)
    ensures x + k' * w + a * (u + r * w) == x + (if u == 1.0 then a else 0.0) + k * w
  {
    assert a * (u + r * w) == a * u + a * r * w;
    assert k * w == k' * w + a * r * w;
  }

  /** Multiplying by the matrix subtracts the component along w. */
  lemma VecMatProjects(h: Vec, w: Vec)
    requires |h| == |w|
    ensures VecMat(h, Removal(w), |w|) == Project(h, w)
  {
    VecMatIsAddScale(h, w, Factor(Dot(h, w), w), Dot(h, w));
  }

  lemma VecMatIsAddScale(h: Vec, w: Vec, k: real, dot: real)
    requires |h| == |w| && dot == Dot(h, w) && k == Factor(dot, w)
    ensures VecMat(h, Removal(w), |w|) == AddScale(h, k, w)
  {
    var p := Removal(w);
    assert h[..|h|] == h && w[..|w|] == w && p[..|w|] == p;
    ProjectPrefix(p, h, w, |h|, k, dot);
    assert h + Zero(0) == h;
  }

  lemma ZeroProduct(x: real, y: real)
    ensures x * y == 0.0 <==> x == 0.0 || y == 0.0
  {
  }

  /** The direction just removed is annihilated if and only if there was nothing to
      remove or its squared norm was not clamped. */
  lemma AnnihilatedIff(h: Vec, w: Vec)
    requires |h| == |w|
    ensures Dot(Project(h, w), w) == 0.0 <==> Dot(h, w) == 0.0 || Dot(w, w) >= MIN_NORM_SQ
  {
    AnnihilatedBy(h, w, Project(h, w), Dot(h, w), Factor(Dot(h, w), w));
  }

  lemma AnnihilatedBy(h: Vec, w: Vec, r: Vec, a: real, k: real)
    requires |h| == |w| && a == Dot(h, w) && k == Factor(a, w) && r == AddScale(h, k, w)
    ensures Dot(r, w) == 0.0 <==> a == 0.0 || Dot(w, w) >= MIN_NORM_SQ
  {
    FactorIs(a, w);
    AnnihilatedCore(h, w, k, Clamped(w), a, Dot(w, w), Dot(r, w));
  }

  lemma AnnihilatedCore(h: Vec, w: Vec, k: real, c: real, a: real, s: real, x: real)
    requires |h| == |w| && c > 0.0 && k * c == -a && a == Dot(h, w) && s == Dot(w, w)
    requires x == Dot(AddScale(h, k, w), w)
    ensures x == 0.0 <==> a == 0.0 || s == c
  {
    DotAddScale(h, k, w, w, a, s, x);
    Annihilates(x, a, k, s, c);
  }

  lemma Annihilates(x: real, a: real, k: real, s: real, c: real)
    requires x == a + k * s && k * c == -a && c > 0.0
    ensures x == 0.0 <==> a == 0.0 || s == c
  {
    assert x == k * (s - c);
    ZeroProduct(k, s - c);
    ZeroProduct(k, c);
  }

  /** What is left of a component a along a direction of squared norm s: nothing from
      1e-12 on, and the share that is missing to 1e-12 below it. */
  predicate IsLeft(x: real, a: real, s: real) {
    if s >= 0.000000000001 then x == 0.0 else x == a - a * s / 0.000000000001
  }

  lemma ComponentLeft(h: Vec, w: Vec)
    requires |h| == |w|
    ensures IsLeft(Dot(VecMat(h, NullspaceProjection(w), |w|), w), Dot(h, w), Dot(w, w))
  {
    NullspaceIsRemoval(w);
    VecMatProjects(h, w);
    ComponentOf(h, w, Dot(h, w), Factor(Dot(h, w), w), Clamped(w), Dot(w, w), Dot(Project(h, w), w));
  }

  lemma ComponentOf(h: Vec, w: Vec, a: real, k: real, c: real, s: real, x: real)
    requires |h| == |w| && a == Dot(h, w) && k == Factor(a, w) && c == Clamped(w) && s == Dot(w, w)
    requires x == Dot(AddScale(h, k, w), w)
    ensures IsLeft(x, a, s)
  {
    FactorIs(a, w);
    DotAddScale(h, k, w, w, a, s, x);
    ShareLeft(a, k, c, s, x);
  }

  lemma ShareLeft(a: real, k: real, c: real, s: real, x: real)
    requires k * c == -a && x == a + k * s && c == if s < MIN_NORM_SQ then MIN_NORM_SQ else s
    ensures IsLeft(x, a, s)
  {
    assert k * s * c == k * c * s;
  }

  /** A direction shorter than one is removed too. */
  lemma HalfIsRemoved()
    ensures VecMat([1.0], NullspaceProjection([0.5]), 1) == [0.0]
  {
    ComponentLeft([1.0], [0.5]);
    var r := VecMat([1.0], NullspaceProjection([0.5]), 1);
    DotOne([0.5], [0.5]);
    DotOne(r, [0.5]);
  }

  lemma DotOne(x: Vec, y: Vec)
    requires |x| == |y| == 1
    ensures Dot(x, y) == x[0] * y[0]
  {
    assert Dot(x[..0], y[..0]) == 0.0;
  }

  lemma ProjectFacts(h: Vec, w: Vec) returns (a: real, k: real, c: real, s: real)
    requires |h| == |w|
    ensures a == Dot(h, w) && s == Dot(w, w) && Project(h, w) == AddScale(h, k, w)
    ensures k * c == -a && c > 0.0 && s <= c && (s == c <==> s >= MIN_NORM_SQ)
  {
    a, k, c, s := Dot(h, w), Factor(Dot(h, w), w), Clamped(w), Dot(w, w);
    FactorIs(a, w);
  }

  /** No projection makes a row longer, clamped or not. */
  lemma NormDoesNotGrow(h: Vec, w: Vec)
    requires |h| == |w|
    ensures Dot(Project(h, w), Project(h, w)) <= Dot(h, h)
  {
    var a, k, c, s := ProjectFacts(h, w);
    var r := Project(h, w);
    NormCore(h, w, r, a, k, c, s, Dot(h, h), Dot(h, r), Dot(w, r), Dot(r, r));
  }

  lemma NormCore(h: Vec, w: Vec, r: Vec, a: real, k: real, c: real, s: real, hh: real, hr: real, wr: real, rr: real)
    requires |h| == |w| && r == AddScale(h, k, w) && k * c == -a && c > 0.0 && s <= c
    requires a == Dot(h, w) && s == Dot(w, w) && hh == Dot(h, h) && hr == Dot(h, r) && wr == Dot(w, r)
    requires rr == Dot(r, r)
    ensures rr <= hh
  {
    DotSymmetric(h, r);
    DotSymmetric(w, r);
    DotSymmetric(w, h);
    DotAddScale(h, k, w, r, hr, wr, rr);
    DotAddScale(h, k, w, h, hh, a, hr);
    DotAddScale(h, k, w, w, a, s, wr);
    Shrinks(a, c, s, k, hh, hr, wr, rr);
  }

  lemma Shrinks(a: real, c: real, s: real, k: real, hh: real, hr: real, wr: real, rr: real)
    requires s <= c && c > 0.0 && k * c == -a
    requires hr == hh + k * a && wr == a + k * s && rr == hr + k * wr
    ensures rr <= hh
  {
    assert k * wr == k * a + k * k * s;
    assert k * a == -(k * k * c);
    assert rr == hh + k * k * (s - 2.0 * c);
    NonPositive(k * k, s - 2.0 * c);
  }

  lemma NonPositive(x: real, y: real)
    requires x >= 0.0 && y <= 0.0
    ensures x * y <= 0.0
  {
  }

  /** A vector orthogonal to w is not changed. */
  lemma OrthogonalKept(h: Vec, w: Vec)
    requires |h| == |w| && Dot(h, w) == 0.0
    ensures Project(h, w) == h
  {
    KeptBy(h, w, Factor(Dot(h, w), w), Dot(h, w));
  }

  lemma KeptBy(h: Vec, w: Vec, k: real, a: real)
    requires |h| == |w| && a == 0.0 && k == Factor(a, w)
    ensures AddScale(h, k, w) == h
  {
    FactorOfZero(w, a, k);
  }

  /** Products with a vector orthogonal to w are not changed. */
  lemma DotKept(h: Vec, w: Vec, v: Vec)
    requires |h| == |w| == |v| && Dot(w, v) == 0.0
    ensures Dot(Project(h, w), v) == Dot(h, v)
  {
    DotAddScale(h, Factor(Dot(h, w), w), w, v, Dot(h, v), Dot(w, v), Dot(Project(h, w), v));
  }

  /** An unclamped direction is sent to zero by its own projection. */
  lemma SelfVanishes(w: Vec)
    requires Dot(w, w) >= MIN_NORM_SQ
    ensures Project(w, w) == Zero(|w|)
  {
    VanishesBy(w, Factor(Dot(w, w), w), Dot(w, w));
  }

  lemma VanishesBy(w: Vec, k: real, a: real)
    requires a == Clamped(w) && k == Factor(a, w)
    ensures AddScale(w, k, w) == Zero(|w|)
  {
    FactorIs(a, w);
    MinusOne(k, a);
  }

  lemma MinusOne(k: real, c: real)
    requires k * c == -c && c > 0.0
    ensures k == -1.0
  {
    assert (k + 1.0) * c == 0.0;
    FactorZero(k + 1.0, c);
  }

  lemma ZeroKept(w: Vec)
    ensures Project(Zero(|w|), w) == Zero(|w|)
  {
    DotZero(w);
    OrthogonalKept(Zero(|w|), w);
  }
}
