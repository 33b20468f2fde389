/** The runner of iterative null-space projection (exp1_math/inlp_runner.py,
    INLP_Runner.remove_direction, INLP_Runner.inlp). The classifiers are arbitrary:
    `trained[t]` is the accuracy and the weight vector of iteration t + 1. */
module InlpRunner {
  import opened Arithmetic
  import opened Inlp
  import opened LinearAlgebra
  import opened Projections
  import opened Sequences

  datatype Trained = Trained(acc: real, w: Vec)

  function DirectionsOf(trained: seq<Trained>): seq<Vec> {
    if trained == [] then [] else DirectionsOf(trained[..|trained| - 1]) + [trained[|trained| - 1].w]
  }

  function AccuraciesOf(trained: seq<Trained>): seq<real> {
    if trained == [] then [] else AccuraciesOf(trained[..|trained| - 1]) + [trained[|trained| - 1].acc]
  }

  predicate AllOfSize(trained: seq<Trained>, d: nat) {
    forall t :: 0 <= t < |trained| ==> |trained[t].w| == d
  }

  /** k iterations were completed: the first k directions were removed, and none of
      the first k classifiers was near chance. */
  predicate Completed(trained: seq<Trained>, k: nat, bound: real) {
    k <= |trained| && forall t :: 0 <= t < k ==> trained[t].acc > bound
  }

  lemma MatMulConcat(a: Mat, b: Mat, p: Mat, d: nat)
    requires IsMat(a, |a|, |p|) && IsMat(b, |b|, |p|) && IsMat(p, |p|, d)
    ensures IsMat(a + b, |a| + |b|, |p|) && MatMul(a + b, p, d) == MatMul(a, p, d) + MatMul(b, p, d)
  {
  }

  class Runner {
    const iterations: nat
    const bound: real  // chance accuracy plus tolerance
    const d: nat
    var H: Mat
    var PPerp: Mat
    var PHistory: seq<Mat>

    ghost predicate Valid()
      reads this
    {
      IsMat(H, |H|, d) && IsMat(PPerp, d, d)
    }

    constructor (H: Mat, d: nat, iterations: nat, bound: real)
      requires IsMat(H, |H|, d)
      ensures Valid() && this.H == H && this.d == d && this.iterations == iterations && this.bound == bound
    {
      this.H, this.d, this.iterations, this.bound := H, d, iterations, bound;
      PPerp, PHistory := Identity(d), [];
    }

    /** H is projected chunk by chunk; false when there is no chunk to concatenate. */
    method RemoveDirection(w: Vec, chunkSize: nat) returns (ok: bool)
      requires Valid() && |w| == d && chunkSize > 0
      modifies this
      ensures ok <==> old(H) != []
      ensures !ok ==> unchanged(this)
      ensures ok ==>
                && Valid()
                && H == MatMul(old(H), Removal(w), d)
                && PPerp == MatMul(old(PPerp), Removal(w), d)
                && PHistory == old(PHistory) + [PPerp]
    {
      var p := NullspaceProjection(w);
      NullspaceIsRemoval(w);
      var pieces: seq<Mat> := [];
      var i: nat := 0;
      while i < |H|
        invariant unchanged(this)
        invariant Flatten(pieces) == MatMul(H[..Min(i, |H|)], p, d)
        invariant (pieces == [] <==> i == 0) && (i > 0 ==> H != [])
      {
        var end := Min(i + chunkSize, |H|);
        var chunk := H[i..end];
        MatMulConcat(H[..i], chunk, p, d);
        assert H[..i] + chunk == H[..end];
        FlattenAppend(pieces, MatMul(chunk, p, d));
        pieces := pieces + [MatMul(chunk, p, d)];
        i := i + chunkSize;
      }
      if pieces == [] {
        return false;
      }
      assert H[..|H|] == H;
      H := Flatten(pieces);
      PPerp := MatMul(PPerp, p, d);
      PHistory := PHistory + [PPerp];
      return true;
    }

    method Run(trained: seq<Trained>) returns (removed: seq<Vec>, accs: seq<real>)
      requires Valid() && H != [] && AllOfSize(trained, d) && |trained| == iterations
      modifies this
      ensures Completed(trained, |removed|, bound)
      ensures |removed| < |trained| ==> trained[|removed|].acc <= bound
      ensures |accs| == if |removed| < |trained| then |removed| + 1 else |removed|
      ensures removed == DirectionsOf(trained[..|removed|]) && accs == AccuraciesOf(trained[..|accs|])
      ensures Valid() && After(H, PPerp, PHistory, d, old(H), removed)
    {
      removed, accs := [], [];
      PPerp := Identity(d);
      PHistory := [PPerp];
      AfterNothing(H, d);
      var t: nat := 0;
      while t < iterations
        invariant t <= iterations && Valid() && H != []
        invariant removed == DirectionsOf(trained[..t]) && accs == AccuraciesOf(trained[..t])
        invariant |removed| == |accs| == t && Completed(trained, t, bound)
        invariant After(H, PPerp, PHistory, d, old(H), removed)
      {
        assert trained[..t + 1][..t] == trained[..t];
        accs := accs + [trained[t].acc];
        if trained[t].acc <= bound {
          break;
        }
        AfterOneMore(H, PPerp, PHistory, d, old(H), removed, trained[t].w);
        var ok := RemoveDirection(trained[t].w, 4096);
        removed := removed + [trained[t].w];
        t := t + 1;
      }
    }
  }

  /** The state after the directions `ws` were removed from `start`. */
  ghost predicate After(H: Mat, perp: Mat, history: seq<Mat>, d: nat, start: Mat, ws: seq<Vec>) {
    && Directions(ws, d) && IsMat(start, |start|, d)
    && perp == PerpOf(ws, d) && H == MatMul(start, perp, d)
    && IsHistory(history, d, ws)
  }

  /** Entry k is the product of the first k projections. */
  ghost predicate IsHistory(history: seq<Mat>, d: nat, ws: seq<Vec>)
    requires Directions(ws, d)
  {
    |history| == |ws| + 1 && forall k :: 0 <= k <= |ws| ==> HistoryAt(history, d, ws, k)
  }

  ghost predicate HistoryAt(history: seq<Mat>, d: nat, ws: seq<Vec>, k: nat)
    requires Directions(ws, d) && k <= |ws|
  {
    k < |history| && history[k] == PerpOf(ws[..k], d)
  }

  lemma AfterNothing(start: Mat, d: nat)
    requires IsMat(start, |start|, d)
    ensures After(start, Identity(d), [Identity(d)], d, start, [])
  {
    forall i | 0 <= i < |start| ensures start[i] == MatMul(start, Identity(d), d)[i] {
      VecMatIdentity(start[i]);
    }
  }

  lemma HistoryOneMore(history: seq<Mat>, d: nat, ws: seq<Vec>, w: Vec)
    requires Directions(ws, d) && IsHistory(history, d, ws) && |w| == d
    ensures Directions(ws + [w], d) && IsHistory(history + [PerpOf(ws + [w], d)], d, ws + [w])
  {
    var all := ws + [w];
    assert all[..|all|] == all;
    var longer := history + [PerpOf(all, d)];
    forall k | 0 <= k <= |all| ensures HistoryAt(longer, d, all, k) {
      if k <= |ws| {
        assert HistoryAt(history, d, ws, k) && all[..k] == ws[..k];
      }
    }
  }

  lemma AfterOneMore(H: Mat, perp: Mat, history: seq<Mat>, d: nat, start: Mat, ws: seq<Vec>, w: Vec)
    requires After(H, perp, history, d, start, ws) && |w| == d
    ensures var p := Removal(w);
            After(MatMul(H, p, d), MatMul(perp, p, d), history + [MatMul(perp, p, d)], d, start, ws + [w])
  {
    assert (ws + [w])[..|ws|] == ws;
    HistoryOneMore(history, d, ws, w);
    MatMulAssociative(start, perp, Removal(w), d);
  }

  // ---------- what this means for the representations ----------

  /** After any run, each row is the original row projected along each removed
      direction in turn, and is no longer than it was. */
  lemma RowsAfter(H: Mat, perp: Mat, history: seq<Mat>, d: nat, start: Mat, ws: seq<Vec>, i: nat)
    requires After(H, perp, history, d, start, ws) && i < |start|
    ensures |H| == |start| && H[i] == Through(start[i], ws) && Dot(H[i], H[i]) <= Dot(start[i], start[i])
  {
    PerpActs(start[i], ws);
    RowsDoNotGrow(start[i], ws);
  }

  /** The direction removed last is gone from every row, if it was not clamped. */
  lemma LastDirectionGone(H: Mat, perp: Mat, history: seq<Mat>, d: nat, start: Mat, ws: seq<Vec>, i: nat)
    requires After(H, perp, history, d, start, ws) && i < |start|
    requires ws != [] && Dot(ws[|ws| - 1], ws[|ws| - 1]) >= MIN_NORM_SQ
    ensures |H| == |start| && |H[i]| == d && Dot(H[i], ws[|ws| - 1]) == 0.0
  {
    PerpActs(start[i], ws);
    AnnihilatedIff(Through(start[i], ws[..|ws| - 1]), ws[|ws| - 1]);
  }
}
