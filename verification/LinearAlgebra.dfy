/** Row vectors and matrices of exact reals, as far as the projections need them. */
module LinearAlgebra {
  type Vec = seq<real>

  type Mat = seq<Vec>

  predicate IsMat(m: Mat, rows: nat, d: nat) {
    |m| == rows && forall i :: 0 <= i < |m| ==> |m[i]| == d
  }

  function Zero(d: nat): (r: Vec)
    ensures |r| == d && forall i :: 0 <= i < d ==> r[i] == 0.0
  {
    seq(d, _ => 0.0)
  }

  function Unit(d: nat, k: nat): (r: Vec)
    ensures |r| == d && forall i :: 0 <= i < d ==> r[i] == if i == k then 1.0 else 0.0
  {
    seq(d, i => if i == k then 1.0 else 0.0)
  }

  function Identity(d: nat): (r: Mat)
    ensures IsMat(r, d, d) && forall k :: 0 <= k < d ==> r[k] == Unit(d, k)
  {
    seq(d, k requires 0 <= k < d => Unit(d, k))
  }

  /** u + c * v */
  function AddScale(u: Vec, c: real, v: Vec): (r: Vec)
    requires |u| == |v|
    ensures |r| == |u| && forall i :: 0 <= i < |u| ==> r[i] == u[i] + c * v[i]
  {
    seq(|u|, i requires 0 <= i < |u| => u[i] + c * v[i])
  }

  lemma AddScalePrefix(u: Vec, c: real, v: Vec, n: nat)
    requires n <= |u| == |v|
    ensures AddScale(u, c, v)[..n] == AddScale(u[..n], c, v[..n])
  {
    forall i | 0 <= i < n ensures AddScale(u, c, v)[..n][i] == AddScale(u[..n], c, v[..n])[i] {
      assert v[..n][i] == v[i];
    }
  }

  function Dot(u: Vec, v: Vec): real
    requires |u| == |v|
  {
    if u == [] then 0.0 else Dot(u[..|u| - 1], v[..|v| - 1]) + u[|u| - 1] * v[|v| - 1]
  }

  /** h times P, as a combination of the rows of P. */
  function VecMat(h: Vec, p: Mat, d: nat): (r: Vec)
    requires IsMat(p, |h|, d)
    ensures |r| == d
  {
    if h == [] then Zero(d) else
      AddScale(VecMat(h[..|h| - 1], p[..|p| - 1], d), h[|h| - 1], p[|p| - 1])
  }

  function MatMul(a: Mat, p: Mat, d: nat): (r: Mat)
    requires IsMat(a, |a|, |p|) && IsMat(p, |p|, d)
    ensures IsMat(r, |a|, d) && forall i :: 0 <= i < |a| ==> r[i] == VecMat(a[i], p, d)
  {
    seq(|a|, i requires 0 <= i < |a| => VecMat(a[i], p, d))
  }

  // ---------- the inner product ----------

  lemma {:induction false} DotSymmetric(u: Vec, v: Vec)
    requires |u| == |v|
    ensures Dot(u, v) == Dot(v, u)
  {
    if u != [] {
      DotSymmetric(u[..|u| - 1], v[..|v| - 1]);
    }
  }

  /** The inner product is linear in its first argument; the products have names. */
  lemma {:induction false} DotAddScale(u: Vec, c: real, v: Vec, w: Vec, a: real, b: real, x: real)
    requires |u| == |v| == |w| && a == Dot(u, w) && b == Dot(v, w) && x == Dot(AddScale(u, c, v), w)
    ensures x == a + c * b
  {
    if u != [] {
      var n := |u| - 1;
      var sum := AddScale(u, c, v);
      AddScalePrefix(u, c, v, n);
      DotAddScale(u[..n], c, v[..n], w[..n], Dot(u[..n], w[..n]), Dot(v[..n], w[..n]), Dot(sum[..n], w[..n]));
      DotNext(u, v, sum, w, c, Dot(u[..n], w[..n]), Dot(v[..n], w[..n]), Dot(sum[..n], w[..n]),
              u[n], v[n], w[n], sum[n], a, b, x);
    }
  }

  lemma DotNext(u: Vec, v: Vec, sum: Vec, w: Vec, c: real, a': real, b': real, x': real,
                un: real, vn: real, wn: real, z: real, a: real, b: real, x: real)
    requires |u| == |v| == |w| > 0 && sum == AddScale(u, c, v)
    requires var n := |u| - 1;
             && a' == Dot(u[..n], w[..n]) && b' == Dot(v[..n], w[..n]) && x' == Dot(sum[..n], w[..n])
             && un == u[n] && vn == v[n] && wn == w[n] && z == sum[n]
    requires a == Dot(u, w) && b == Dot(v, w) && x == Dot(sum, w) && x' == a' + c * b'
    ensures x == a + c * b
  {
    AddScaleAt(u, c, v, |u| - 1, un, vn, z);
    DotStep(u, v, sum, w, c, a', b', x', un, vn, wn, z, a, b, x);
  }

  lemma AddScaleAt(u: Vec, c: real, v: Vec, i: nat, ui: real, vi: real, z: real)
    requires i < |u| == |v| && ui == u[i] && vi == v[i] && z == AddScale(u, c, v)[i]
    ensures z == ui + c * vi
  {
  }

  lemma DotStep(u: Vec, v: Vec, sum: Vec, w: Vec, c: real, a': real, b': real, x': real,
                un: real, vn: real, wn: real, z: real, a: real, b: real, x: real)
    requires |u| == |v| == |w| == |sum| > 0
    requires var n := |u| - 1;
             && a' == Dot(u[..n], w[..n]) && b' == Dot(v[..n], w[..n]) && x' == Dot(sum[..n], w[..n])
             && un == u[n] && vn == v[n] && wn == w[n] && z == sum[n]
    requires z == un + c * vn
    requires a == Dot(u, w) && b == Dot(v, w) && x == Dot(sum, w) && x' == a' + c * b'
    ensures x == a + c * b
  {
    DotLast(u, w, a', un, wn, a);
    DotLast(v, w, b', vn, wn, b);
    DotLast(sum, w, x', z, wn, x);
    LastSum(a', b', x', un, vn, wn, c, z, a, b, x);
  }

  lemma DotLast(u: Vec, w: Vec, a': real, y: real, z: real, a: real)
    requires |u| == |w| > 0 && a' == Dot(u[..|u| - 1], w[..|u| - 1]) && y == u[|u| - 1] && z == w[|u| - 1]
    requires a == Dot(u, w)
    ensures a == a' + y * z
  {
  }

  lemma LastSum(a': real, b': real, x': real, u: real, v: real, w: real, c: real, z: real, a: real, b: real, x: real)
    requires x' == a' + c * b' && z == u + c * v
    requires a == a' + u * w && b == b' + v * w && x == x' + z * w
    ensures x == a + c * b
  {
  }

  lemma LastTerm(u: real, c: real, v: real, w: real, rest: real)
    ensures (u + c * v) * w == u * w + c * (v * w)
    ensures c * (rest + v * w) == c * rest + c * (v * w)
  {
  }

  lemma {:induction false} DotZero(w: Vec)
    ensures Dot(Zero(|w|), w) == 0.0
  {
    if w != [] {
      var n := |w| - 1;
      DotZero(w[..n]);
      assert Zero(|w|)[..n] == Zero(n);
    }
  }

  lemma {:induction false} DotUnit(d: nat, k: nat, w: Vec)
    requires k < d == |w|
    ensures Dot(Unit(d, k), w) == w[k]
  {
    var n := d - 1;
    if k == n {
      assert Unit(d, k)[..n] == Zero(n);
      DotZero(w[..n]);
    } else {
      DotUnit(n, k, w[..n]);
      assert Unit(d, k)[..n] == Unit(n, k);
    }
  }

  lemma {:induction false} SquareNonNegative(v: Vec)
    ensures Dot(v, v) >= 0.0
  {
    if v != [] {
      SquareNonNegative(v[..|v| - 1]);
      assert v[|v| - 1] * v[|v| - 1] >= 0.0;
    }
  }

  // ---------- products ----------

  lemma {:induction false} VecMatAddScale(u: Vec, c: real, v: Vec, p: Mat, d: nat)
    requires |u| == |v| && IsMat(p, |u|, d)
    ensures VecMat(AddScale(u, c, v), p, d) == AddScale(VecMat(u, p, d), c, VecMat(v, p, d))
  {
    if u == [] {
      assert v == [] && AddScale(u, c, v) == [];
      assert AddScale(Zero(d), c, Zero(d)) == Zero(d);
    } else {
      var n := |u| - 1;
      VecMatAddScale(u[..n], c, v[..n], p[..n], d);
      AddScalePrefix(u, c, v, n);
      var sum := AddScale(u, c, v);
      VecMatLast(u, p, d);
      VecMatLast(v, p, d);
      VecMatLast(sum, p, d);
      AddScaleTwice(VecMat(u[..n], p[..n], d), VecMat(v[..n], p[..n], d), p[n], u[n], v[n], c, sum[n]);
    }
  }

  lemma VecMatLast(h: Vec, p: Mat, d: nat)
    requires IsMat(p, |h|, d) && h != []
    ensures VecMat(h, p, d) == AddScale(VecMat(h[..|h| - 1], p[..|p| - 1], d), h[|h| - 1], p[|p| - 1])
  {
  }

  lemma AddScaleTwice(a: Vec, b: Vec, row: Vec, x: real, y: real, c: real, z: real)
    requires |a| == |b| == |row| && z == x + c * y
    ensures AddScale(AddScale(a, c, b), z, row) == AddScale(AddScale(a, x, row), c, AddScale(b, y, row))
  {
    forall i | 0 <= i < |a|
      ensures AddScale(AddScale(a, c, b), z, row)[i] == AddScale(AddScale(a, x, row), c, AddScale(b, y, row))[i] {
      LastTerm(x, c, y, row[i], b[i]);
    }
  }

  lemma {:induction false} VecMatAssociative(h: Vec, a: Mat, b: Mat, d: nat)
    requires IsMat(a, |h|, |b|) && IsMat(b, |b|, d)
    ensures VecMat(VecMat(h, a, |b|), b, d) == VecMat(h, MatMul(a, b, d), d)
  {
    if h == [] {
      VecMatZero(b, d);
    } else {
      var n := |h| - 1;
      VecMatAssociative(h[..n], a[..n], b, d);
      assert MatMul(a, b, d)[..n] == MatMul(a[..n], b, d);
      VecMatAddScale(VecMat(h[..n], a[..n], |b|), h[n], a[n], b, d);
    }
  }

  lemma {:induction false} VecMatZero(p: Mat, d: nat)
    requires IsMat(p, |p|, d)
    ensures VecMat(Zero(|p|), p, d) == Zero(d)
  {
    if p != [] {
      var n := |p| - 1;
      VecMatZero(p[..n], d);
      assert Zero(|p|)[..n] == Zero(n);
    }
  }

  lemma MatMulAssociative(h: Mat, a: Mat, b: Mat, d: nat)
    requires IsMat(h, |h|, |a|) && IsMat(a, |a|, |b|) && IsMat(b, |b|, d)
    ensures MatMul(MatMul(h, a, |b|), b, d) == MatMul(h, MatMul(a, b, d), d)
  {
    forall i | 0 <= i < |h| ensures MatMul(MatMul(h, a, |b|), b, d)[i] == MatMul(h, MatMul(a, b, d), d)[i] {
      VecMatAssociative(h[i], a, b, d);
    }
  }

  /** A unit vector picks a row. */
  lemma {:induction false} VecMatUnit(k: nat, p: Mat, d: nat)
    requires k < |p| && IsMat(p, |p|, d)
    ensures VecMat(Unit(|p|, k), p, d) == p[k]
  {
    var n := |p| - 1;
    if k == n {
      assert Unit(|p|, k)[..n] == Zero(n);
      VecMatZero(p[..n], d);
    } else {
      VecMatUnit(k, p[..n], d);
      assert Unit(|p|, k)[..n] == Unit(n, k);
    }
  }

  /** h times the identity; zeros stand for the part of h not yet used. */
  lemma {:induction false} IdentityPrefix(h: Vec, d: nat)
    requires |h| <= d
    ensures VecMat(h, Identity(d)[..|h|], d) == h + Zero(d - |h|)
  {
    if h != [] {
      var n := |h| - 1;
      IdentityPrefix(h[..n], d);
      assert Identity(d)[..|h|][..n] == Identity(d)[..n];
    }
  }

  lemma VecMatIdentity(h: Vec)
    ensures VecMat(h, Identity(|h|), |h|) == h
  {
    IdentityPrefix(h, |h|);
    assert Identity(|h|)[..|h|] == Identity(|h|) && h + Zero(0) == h;
  }

  /** If every row of P is orthogonal to w, so is every combination of the rows. */
  lemma {:induction false} CombinationOrthogonal(h: Vec, p: Mat, w: Vec)
    requires IsMat(p, |h|, |w|) && forall i :: 0 <= i < |p| ==> Dot(p[i], w) == 0.0
    ensures Dot(VecMat(h, p, |w|), w) == 0.0
  {
    if h == [] {
      DotZero(w);
    } else {
      var n := |h| - 1;
      CombinationOrthogonal(h[..n], p[..n], w);
      VecMatLast(h, p, |w|);
      DotAddScale(VecMat(h[..n], p[..n], |w|), h[n], p[n], w, 0.0, 0.0, Dot(VecMat(h, p, |w|), w));
    }
  }
}
