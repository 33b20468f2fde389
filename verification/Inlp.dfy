/** Iterative null-space projection (exp1_math/inlp_runner.py, INLP_Runner), over
    exact reals: what a sequence of removed directions does. */
module Inlp {
  import opened LinearAlgebra
  import opened Projections

  predicate Directions(ws: seq<Vec>, d: nat) {
    forall t :: 0 <= t < |ws| ==> |ws[t]| == d
  }

  /** The product of the projections of all directions, in order. */
  ghost function PerpOf(ws: seq<Vec>, d: nat): (p: Mat)
    requires Directions(ws, d)
    ensures IsMat(p, d, d)
  {
    if ws == [] then Identity(d) else
      MatMul(PerpOf(ws[..|ws| - 1], d), Removal(ws[|ws| - 1]), d)
  }

  /** One vector after all projections, one at a time. */
  ghost function Through(h: Vec, ws: seq<Vec>): (r: Vec)
    requires Directions(ws, |h|)
    ensures |r| == |h|
  {
    if ws == [] then h else Project(Through(h, ws[..|ws| - 1]), ws[|ws| - 1])
  }

  /** Multiplying by the accumulated matrix is projecting along each direction in turn. */
  lemma {:induction false} PerpActs(h: Vec, ws: seq<Vec>)
    requires Directions(ws, |h|)
    ensures VecMat(h, PerpOf(ws, |h|), |h|) == Through(h, ws)
  {
    if ws == [] {
      VecMatIdentity(h);
    } else {
      var n := |ws| - 1;
      PerpActs(h, ws[..n]);
      VecMatAssociative(h, PerpOf(ws[..n], |h|), Removal(ws[n]), |h|);
      VecMatProjects(Through(h, ws[..n]), ws[n]);
    }
  }

  lemma PerpRow(ws: seq<Vec>, d: nat, i: nat)
    requires Directions(ws, d) && i < d
    ensures PerpOf(ws, d)[i] == Through(Unit(d, i), ws)
  {
    VecMatUnit(i, PerpOf(ws, d), d);
    PerpActs(Unit(d, i), ws);
  }

  /** However many directions are removed, no row grows. */
  lemma {:induction false} RowsDoNotGrow(h: Vec, ws: seq<Vec>)
    requires Directions(ws, |h|)
    ensures Dot(Through(h, ws), Through(h, ws)) <= Dot(h, h)
  {
    if ws != [] {
      RowsDoNotGrow(h, ws[..|ws| - 1]);
      NormDoesNotGrow(Through(h, ws[..|ws| - 1]), ws[|ws| - 1]);
    }
  }

  // ---------- orthogonal directions ----------

  predicate Unclamped(ws: seq<Vec>) {
    forall t :: 0 <= t < |ws| ==> Dot(ws[t], ws[t]) >= MIN_NORM_SQ
  }

  predicate OrthogonalTo(w: Vec, ws: seq<Vec>)
    requires Directions(ws, |w|)
  {
    forall t :: 0 <= t < |ws| ==> Dot(ws[t], w) == 0.0
  }

  predicate Orthogonal(ws: seq<Vec>, d: nat)
    requires Directions(ws, d)
  {
    forall t :: 0 <= t < |ws| ==> OrthogonalTo(ws[t], ws[..t])
  }

  lemma OrthogonalPrefix(ws: seq<Vec>, d: nat)
    requires ws != [] && Directions(ws, d) && Orthogonal(ws, d)
    ensures Orthogonal(ws[..|ws| - 1], d) && OrthogonalTo(ws[|ws| - 1], ws[..|ws| - 1])
  {
    var n := |ws| - 1;
    forall t | 0 <= t < n ensures OrthogonalTo(ws[..n][t], ws[..n][..t]) {
      assert ws[..n][..t] == ws[..t] && OrthogonalTo(ws[t], ws[..t]);
    }
  }

  lemma {:induction false} DotThrough(h: Vec, ws: seq<Vec>, w: Vec)
    requires Directions(ws, |h|) && |w| == |h| && OrthogonalTo(w, ws)
    ensures Dot(Through(h, ws), w) == Dot(h, w)
  {
    if ws != [] {
      var n := |ws| - 1;
      DotThrough(h, ws[..n], w);
      DotKept(Through(h, ws[..n]), ws[n], w);
    }
  }

  /** Nothing is left along any direction. */
  predicate Clean(h: Vec, ws: seq<Vec>)
    requires Directions(ws, |h|)
  {
    forall t :: 0 <= t < |ws| ==> Dot(h, ws[t]) == 0.0
  }

  lemma {:induction false} CleanAfter(h: Vec, ws: seq<Vec>)
    requires Directions(ws, |h|) && Unclamped(ws) && Orthogonal(ws, |h|)
    ensures Clean(Through(h, ws), ws)
  {
    if ws != [] {
      var n := |ws| - 1;
      var v := Through(h, ws[..n]);
      OrthogonalPrefix(ws, |h|);
      CleanAfter(h, ws[..n]);
      AnnihilatedIff(v, ws[n]);
      forall t | 0 <= t < n ensures Dot(Through(h, ws), ws[t]) == 0.0 {
        assert Dot(v, ws[..n][t]) == 0.0;
        assert Dot(ws[..n][t], ws[n]) == 0.0;
        DotSymmetric(ws[t], ws[n]);
        DotKept(v, ws[n], ws[t]);
      }
    }
  }

  lemma {:induction false} CleanKept(h: Vec, ws: seq<Vec>)
    requires Directions(ws, |h|) && Clean(h, ws)
    ensures Through(h, ws) == h
  {
    if ws != [] {
      var n := |ws| - 1;
      assert forall t :: 0 <= t < n ==> Dot(h, ws[..n][t]) == Dot(h, ws[t]);
      CleanKept(h, ws[..n]);
      OrthogonalKept(h, ws[n]);
    }
  }

  /** P_perp is idempotent. */
  lemma PerpIdempotent(ws: seq<Vec>, d: nat)
    requires Directions(ws, d) && Unclamped(ws) && Orthogonal(ws, d)
    ensures MatMul(PerpOf(ws, d), PerpOf(ws, d), d) == PerpOf(ws, d)
  {
    var p := PerpOf(ws, d);
    forall i | 0 <= i < d ensures MatMul(p, p, d)[i] == p[i] {
      PerpRow(ws, d, i);
      CleanAfter(Unit(d, i), ws);
      CleanKept(p[i], ws);
      PerpActs(p[i], ws);
    }
  }

  lemma {:induction false} ZeroThrough(d: nat, ws: seq<Vec>)
    requires Directions(ws, d)
    ensures Through(Zero(d), ws) == Zero(d)
  {
    if ws != [] {
      ZeroThrough(d, ws[..|ws| - 1]);
      ZeroKept(ws[|ws| - 1]);
    }
  }

  /** P_perp sends every removed direction to zero. */
  lemma {:induction false} PerpKills(ws: seq<Vec>, d: nat, t: nat)
    requires t < |ws| && Directions(ws, d) && Unclamped(ws) && Orthogonal(ws, d)
    ensures VecMat(ws[t], PerpOf(ws, d), d) == Zero(d)
  {
    PerpActs(ws[t], ws);
    Vanishes(ws, d, t);
  }

  lemma {:induction false} Vanishes(ws: seq<Vec>, d: nat, t: nat)
    requires t < |ws| && Directions(ws, d) && Unclamped(ws) && Orthogonal(ws, d)
    ensures Through(ws[t], ws) == Zero(d)
  {
    var n := |ws| - 1;
    OrthogonalPrefix(ws, d);
    if t < n {
      assert ws[..n][t] == ws[t];
      Vanishes(ws[..n], d, t);
      ZeroKept(ws[n]);
    } else {
      forall s | 0 <= s < n ensures Dot(ws[n], ws[..n][s]) == 0.0 {
        assert Dot(ws[..n][s], ws[n]) == 0.0;
        DotSymmetric(ws[s], ws[n]);
      }
      CleanKept(ws[n], ws[..n]);
      SelfVanishes(ws[n]);
    }
  }

  /** The sum over the directions of the outer product of w with itself over its
      squared norm, at (i, j). */
  function OuterSum(ws: seq<Vec>, d: nat, i: nat, j: nat): real
    requires Directions(ws, d) && Unclamped(ws) && i < d && j < d
  {
    if ws == [] then 0.0 else OuterSum(ws[..|ws| - 1], d, i, j) + Outer(ws[|ws| - 1], i, j)
  }

  function Outer(w: Vec, i: nat, j: nat): real
    requires i < |w| && j < |w| && Dot(w, w) >= MIN_NORM_SQ
  {
    Quotient(w[i], w[j], Dot(w, w))
  }

  lemma QuotientSymmetric(x: real, y: real, s: real)
    requires s != 0.0
    ensures Quotient(x, y, s) == Quotient(y, x, s)
  {
    assert x * y == y * x;
  }

  /** P_perp is the identity minus the sum of the outer products. */
  lemma {:induction false} PerpEntry(ws: seq<Vec>, d: nat, i: nat, j: nat)
    requires Directions(ws, d) && Unclamped(ws) && Orthogonal(ws, d) && i < d && j < d
    ensures PerpOf(ws, d)[i][j] == Unit(d, i)[j] - OuterSum(ws, d, i, j)
  {
    PerpRow(ws, d, i);
    ThroughEntry(ws, d, i, j);
  }

  lemma {:induction false} ThroughEntry(ws: seq<Vec>, d: nat, i: nat, j: nat)
    requires Directions(ws, d) && Unclamped(ws) && Orthogonal(ws, d) && i < d && j < d
    ensures Through(Unit(d, i), ws)[j] == Unit(d, i)[j] - OuterSum(ws, d, i, j)
  {
    if ws != [] {
      var n := |ws| - 1;
      var v := Through(Unit(d, i), ws[..n]);
      OrthogonalPrefix(ws, d);
      ThroughEntry(ws[..n], d, i, j);
      DotThrough(Unit(d, i), ws[..n], ws[n]);
      DotUnit(d, i, ws[n]);
      ProjectEntry(v, ws[n], i, j, Factor(Dot(v, ws[n]), ws[n]));
    }
  }

  lemma ProjectEntry(v: Vec, w: Vec, i: nat, j: nat, k: real)
    requires |v| == |w| && i < |w| && j < |w| && Dot(w, w) >= MIN_NORM_SQ
    requires Dot(v, w) == w[i] && k == Factor(Dot(v, w), w)
    ensures Project(v, w)[j] == v[j] - Outer(w, i, j)
  {
    EntryBy(v, w, i, j, k, Outer(w, i, j), w[j]);
  }

  lemma EntryBy(v: Vec, w: Vec, i: nat, j: nat, k: real, q: real, y: real)
    requires |v| == |w| && i < |w| && j < |w| && Dot(w, w) >= MIN_NORM_SQ
    requires k == Factor(w[i], w) && q == Outer(w, i, j) && y == w[j]
    ensures AddScale(v, k, w)[j] == v[j] - q
  {
    OuterIs(w, i, j, k, q, y, Dot(w, w));
    EntryCore(v, w, j, k, q, y);
  }

  lemma OuterIs(w: Vec, i: nat, j: nat, k: real, q: real, y: real, s: real)
    requires i < |w| && j < |w| && s == Dot(w, w) && s >= MIN_NORM_SQ && k == Factor(w[i], w) && q == Outer(w, i, j)
    requires y == w[j]
    ensures q == -(k * y)
  {
    FactorIs(w[i], w);
    QuotientIs(w[i], y, s, k, q);
  }

  lemma EntryCore(v: Vec, w: Vec, j: nat, k: real, q: real, y: real)
    requires |v| == |w| && j < |w| && y == w[j] && q == -(k * y)
    ensures AddScale(v, k, w)[j] == v[j] - q
  {
  }

  /** P_perp is symmetric. */
  lemma PerpSymmetric(ws: seq<Vec>, d: nat, i: nat, j: nat)
    requires Directions(ws, d) && Unclamped(ws) && Orthogonal(ws, d) && i < d && j < d
    ensures PerpOf(ws, d)[i][j] == PerpOf(ws, d)[j][i]
  {
    PerpEntry(ws, d, i, j);
    PerpEntry(ws, d, j, i);
    OuterSymmetric(ws, d, i, j);
  }

  lemma {:induction false} OuterSymmetric(ws: seq<Vec>, d: nat, i: nat, j: nat)
    requires Directions(ws, d) && Unclamped(ws) && i < d && j < d
    ensures OuterSum(ws, d, i, j) == OuterSum(ws, d, j, i)
  {
    if ws != [] {
      var w := ws[|ws| - 1];
      OuterSymmetric(ws[..|ws| - 1], d, i, j);
      QuotientSymmetric(w[i], w[j], Dot(w, w));
    }
  }

  // ---------- directions that are not orthogonal ----------

  /** Whatever is projected has nothing left along any of the directions. */
  ghost predicate Kills(ws: seq<Vec>, d: nat)
    requires Directions(ws, d)
  {
    forall h: Vec {:trigger Through(h, ws)} :: |h| == d ==> Clean(Through(h, ws), ws)
  }

  /** What is left after the projections has nothing along w. */
  ghost predicate Blind(ws: seq<Vec>, w: Vec)
    requires Directions(ws, |w|)
  {
    forall i :: 0 <= i < |w| ==> Dot(PerpOf(ws, |w|)[i], w) == 0.0
  }

  /** The new direction is orthogonal to all the earlier ones, or has no effect. */
  ghost predicate Harmless(ws: seq<Vec>, w: Vec)
    requires Directions(ws, |w|)
  {
    OrthogonalTo(w, ws) || Blind(ws, w)
  }

  lemma BlindRows(ws: seq<Vec>, w: Vec, h: Vec)
    requires |h| == |w| && Directions(ws, |w|) && Blind(ws, w)
    ensures Dot(Through(h, ws), w) == 0.0
  {
    PerpActs(h, ws);
    CombinationOrthogonal(h, PerpOf(ws, |w|), w);
  }

  lemma HarmlessKeeps(ws: seq<Vec>, w: Vec, h: Vec)
    requires |h| == |w| && Directions(ws, |w|) && Kills(ws, |w|) && Harmless(ws, w) && Dot(w, w) >= MIN_NORM_SQ
    ensures Clean(Project(Through(h, ws), w), ws) && Dot(Project(Through(h, ws), w), w) == 0.0
  {
    var v := Through(h, ws);
    assert Clean(v, ws);
    AnnihilatedIff(v, w);
    if Blind(ws, w) {
      BlindRows(ws, w, h);
      OrthogonalKept(v, w);
    } else {
      forall t | 0 <= t < |ws| ensures Dot(Project(v, w), ws[t]) == 0.0 {
        DotSymmetric(ws[t], w);
        DotKept(v, w, ws[t]);
      }
    }
  }

  /** A direction that is neither brings an earlier one back. */
  lemma HarmfulRevives(ws: seq<Vec>, w: Vec) returns (h: Vec, t: nat)
    requires Directions(ws, |w|) && Kills(ws, |w|) && !Harmless(ws, w)
    ensures |h| == |w| && t < |ws| && Dot(Project(Through(h, ws), w), ws[t]) != 0.0
  {
    var i :| 0 <= i < |w| && Dot(PerpOf(ws, |w|)[i], w) != 0.0;
    t :| 0 <= t < |ws| && Dot(ws[t], w) != 0.0;
    h := Unit(|w|, i);
    PerpRow(ws, |w|, i);
    KilledAt(ws, |w|, h, t);
    DotSymmetric(ws[t], w);
    RevivesIn(Through(h, ws), w, ws[t]);
  }

  lemma KilledAt(ws: seq<Vec>, d: nat, h: Vec, t: nat)
    requires Directions(ws, d) && Kills(ws, d) && |h| == d && t < |ws|
    ensures Dot(Through(h, ws), ws[t]) == 0.0
  {
    assert Clean(Through(h, ws), ws);
  }

  lemma RevivesIn(v: Vec, w: Vec, u: Vec)
    requires |v| == |w| == |u| && Dot(v, u) == 0.0 && Dot(w, u) != 0.0 && Dot(v, w) != 0.0
    ensures Dot(Project(v, w), u) != 0.0
  {
    Revives(v, w, u, Factor(Dot(v, w), w), Dot(v, w));
  }

  lemma Revives(v: Vec, w: Vec, u: Vec, k: real, a: real)
    requires |v| == |w| == |u| && Dot(v, u) == 0.0 && Dot(w, u) != 0.0 && a != 0.0 && k == Factor(a, w)
    ensures Dot(AddScale(v, k, w), u) != 0.0
  {
    FactorIs(a, w);
    RevivesCore(v, w, u, k, Clamped(w), a, Dot(w, u), Dot(AddScale(v, k, w), u));
  }

  lemma RevivesCore(v: Vec, w: Vec, u: Vec, k: real, c: real, a: real, b: real, x: real)
    requires |v| == |w| == |u| && Dot(v, u) == 0.0 && b == Dot(w, u) && b != 0.0 && a != 0.0 && k * c == -a
    requires x == Dot(AddScale(v, k, w), u)
    ensures x != 0.0
  {
    DotAddScale(v, k, w, u, 0.0, b, x);
    ZeroProduct(k, c);
    ZeroProduct(k, b);
  }

  lemma CleanNext(ws: seq<Vec>, w: Vec, h: Vec)
    requires |h| == |w| && Directions(ws, |w|) && Directions(ws + [w], |w|)
    ensures Clean(Through(h, ws + [w]), ws + [w])
            <==> Clean(Project(Through(h, ws), w), ws) && Dot(Project(Through(h, ws), w), w) == 0.0
  {
    var all := ws + [w];
    assert all[..|ws|] == ws && all[|ws|] == w;
    assert forall t :: 0 <= t < |ws| ==> all[t] == ws[t];
  }

  /** Removing one more direction leaves all removed directions dead if and only if
      it is orthogonal to all of them or has no effect at all. */
  lemma KillsNextIff(ws: seq<Vec>, w: Vec)
    requires Directions(ws, |w|) && Kills(ws, |w|) && Dot(w, w) >= MIN_NORM_SQ
    ensures Directions(ws + [w], |w|) && (Kills(ws + [w], |w|) <==> Harmless(ws, w))
  {
    if Harmless(ws, w) {
      forall h: Vec | |h| == |w| ensures Clean(Through(h, ws + [w]), ws + [w]) {
        HarmlessKeeps(ws, w, h);
        CleanNext(ws, w, h);
      }
    } else {
      var h, t := HarmfulRevives(ws, w);
      CleanNext(ws, w, h);
      assert !Clean(Project(Through(h, ws), w), ws);
    }
  }

  ghost predicate KillsThroughout(ws: seq<Vec>, d: nat)
    requires Directions(ws, d)
  {
    if ws == [] then Kills([], d) else KillsThroughout(ws[..|ws| - 1], d) && Kills(ws, d)
  }

  ghost predicate HarmlessThroughout(ws: seq<Vec>, d: nat)
    requires Directions(ws, d)
  {
    ws == [] || (HarmlessThroughout(ws[..|ws| - 1], d) && Harmless(ws[..|ws| - 1], ws[|ws| - 1]))
  }

  lemma KillsNow(ws: seq<Vec>, d: nat)
    requires Directions(ws, d) && KillsThroughout(ws, d)
    ensures Kills(ws, d)
  {
  }

  /** Over a whole run, all directions removed so far are dead after every iteration if
      and only if each new one was orthogonal to all the earlier ones or had no effect. */
  lemma {:induction false} KillsThroughoutIff(ws: seq<Vec>, d: nat)
    requires Directions(ws, d) && Unclamped(ws)
    ensures KillsThroughout(ws, d) <==> HarmlessThroughout(ws, d)
  {
    if ws != [] {
      var n := |ws| - 1;
      KillsThroughoutIff(ws[..n], d);
      assert ws == ws[..n] + [ws[n]];
      if KillsThroughout(ws[..n], d) {
        KillsNow(ws[..n], d);
        KillsNextIff(ws[..n], ws[n]);
      }
    }
  }

  /** Removing (1, 0) and then (1, 1) does bring (1, 0) back. */
  lemma FirstDirectionReturns()
    ensures !Kills([[1.0, 0.0], [1.0, 1.0]], 2)
  {
    var u, w, h := [1.0, 0.0], [1.0, 1.0], [0.0, 1.0];
    Dot2(h, u);
    Dot2(h, w);
    Dot2(w, u);
    ThroughOne(h, u);
    OrthogonalKept(h, u);
    RevivesIn(h, w, u);
    CleanNext([u], w, h);
    assert [u] + [w] == [[1.0, 0.0], [1.0, 1.0]];
    assert Dot(Project(Through(h, [u]), w), [u][0]) != 0.0;
    assert !Clean(Through(h, [u] + [w]), [u] + [w]);
  }

  lemma ThroughOne(h: Vec, u: Vec)
    requires |h| == |u|
    ensures Directions([u], |h|) && Through(h, [u]) == Project(h, u)
  {
    assert [u][..0] == [];
  }

  lemma Dot2(u: Vec, v: Vec)
    requires |u| == |v| == 2
    ensures Dot(u, v) == u[0] * v[0] + u[1] * v[1]
  {
    assert Dot(u[..1], v[..1]) == Dot(u[..1][..0], v[..1][..0]) + u[0] * v[0];
  }
}
