/** What a list of deltas does to the weights, and when it takes one state of the trainer
    to the next (verl/workers/rollout/sglang_rollout/delta_loader.py, apply_delta). */
module WeightDeltas {
  import opened DeltaWire
  import opened WeightChunks

  // ---------- the effect of several deltas ----------

  /** The value that a delta gives to element x of its parameter, NaN when it gives none. */
  function Given(p: FlushPiece, x: nat): Float {
    if WellFormed(p) && x < Numel(p.shape) then Masked(p)[x] else FILL
  }

  lemma GivenIs(p: FlushPiece, x: nat)
    requires WellFormed(p) && x < Numel(p.shape)
    ensures Given(p, x) == Lookup(p.idx, p.val, x)
    ensures x !in p.idx ==> Given(p, x) == FILL
  {
    MaskedAt(p, x);
    if x !in p.idx {
      LookupNone(p.idx, p.val, x);
    }
  }

  /** Two deltas that do not give different values to one element. */
  ghost predicate Agree(p: FlushPiece, q: FlushPiece) {
    p.name == q.name ==> forall x: nat :: Given(p, x).NaN? || Given(q, x).NaN? || Given(p, x) == Given(q, x)
  }

  ghost predicate Compatible(slots: seq<FlushPiece>) {
    forall p, q :: p in slots && q in slots ==> Agree(p, q)
  }

  predicate Gives(p: FlushPiece, name: string, x: nat) {
    p.name == name && !Given(p, x).NaN?
  }

  lemma PieceAt(ws: Weights, p: FlushPiece, name: string, x: nat)
    requires Fits(ws, p) && name in ws && x < |ws[name]|
    ensures name in ApplyPiece(ws, p) && |ApplyPiece(ws, p)[name]| == |ws[name]|
    ensures ApplyPiece(ws, p)[name][x] == if Gives(p, name, x) then Given(p, x) else ws[name][x]
  {
  }

  /** An element has the value that some delta gives it, and its old one when none does:
      the order of the deltas does not matter, nor how often each is applied. */
  lemma {:induction false} EffectAt(ws: Weights, slots: seq<FlushPiece>, name: string, x: nat)
    requires AllFit(ws, slots) && Compatible(slots) && name in ws && x < |ws[name]|
    ensures name in ApplyPieces(ws, slots) && |ApplyPieces(ws, slots)[name]| == |ws[name]|
    ensures forall p :: p in slots && Gives(p, name, x) ==> ApplyPieces(ws, slots)[name][x] == Given(p, x)
    ensures (forall p :: p in slots ==> !Gives(p, name, x)) ==> ApplyPieces(ws, slots)[name][x] == ws[name][x]
  {
    if slots != [] {
      var n := |slots| - 1;
      var earlier := ApplyPieces(ws, slots[..n]);
      assert slots == slots[..n] + [slots[n]];
      EffectAt(ws, slots[..n], name, x);
      ApplyKeepsShape(ws, slots[..n]);
      assert Fits(ws, slots[n]);
      PieceAt(earlier, slots[n], name, x);
      forall p | p in slots && Gives(p, name, x) ensures ApplyPieces(ws, slots)[name][x] == Given(p, x) {
        assert Agree(p, slots[n]);
      }
    }
  }

  // ---------- the types of the values ----------

  /** The same deltas, whatever the types of their values. */
  predicate SameButTypes(slots: seq<FlushPiece>, others: seq<FlushPiece>) {
    |slots| == |others| && forall i :: 0 <= i < |slots| ==> slots[i] == others[i].(vtype := slots[i].vtype)
  }

  lemma {:induction false} SameApplied(ws: Weights, slots: seq<FlushPiece>, others: seq<FlushPiece>)
    requires SameButTypes(slots, others)
    ensures ApplyPieces(ws, slots) == ApplyPieces(ws, others)
  {
    if slots != [] {
      var n := |slots| - 1;
      SameApplied(ws, slots[..n], others[..n]);
      assert slots[n] == others[n].(vtype := slots[n].vtype);
    }
  }

  lemma SameFit(ws: Weights, slots: seq<FlushPiece>, others: seq<FlushPiece>)
    requires SameButTypes(slots, others)
    ensures AllWellFormed(slots) <==> AllWellFormed(others)
    ensures AllFit(ws, slots) <==> AllFit(ws, others)
  {
    assert forall i :: 0 <= i < |slots| ==> slots[i] == others[i].(vtype := slots[i].vtype);
  }

  // ---------- the difference of two states ----------

  /** Parameter by parameter the sizes agree. */
  predicate SameSizes(a: Weights, b: Weights) {
    a.Keys == b.Keys && forall n :: n in a && n in b ==> |a[n]| == |b[n]|
  }

  /** The delta holds values of this state. */
  predicate CarriesValues(ws: Weights, p: FlushPiece) {
    && Fits(ws, p)
    && forall k :: 0 <= k < |p.idx| ==> ws[p.name][p.idx[k]] == p.val[k]
  }

  predicate AllCarry(ws: Weights, slots: seq<FlushPiece>) {
    forall i :: 0 <= i < |slots| ==> CarriesValues(ws, slots[i])
  }

  predicate Ships(slots: seq<FlushPiece>, name: string, x: nat) {
    exists p :: p in slots && p.name == name && x in p.idx
  }

  /** The deltas hold values of the new state, and among them every changed element. A
      parameter may have several deltas. */
  predicate IsDelta(old_: Weights, new_: Weights, slots: seq<FlushPiece>) {
    && SameSizes(old_, new_) && AllCarry(new_, slots)
    && forall n, x :: n in old_ && n in new_ && 0 <= x < |old_[n]| && x < |new_[n]| && old_[n][x] != new_[n][x] ==>
        Ships(slots, n, x)
  }

  /** No element of any parameter changes to NaN. */
  predicate NoneChangesToNaN(old_: Weights, new_: Weights) {
    forall n :: n in old_ && n in new_ ==> NoChangeToNaN(old_[n], new_[n])
  }

  lemma {:induction false} LookupCarried(p: FlushPiece, ws: Weights, x: nat, k: nat)
    requires CarriesValues(ws, p) && k <= |p.idx| && x in p.idx[..k]
    ensures x < |ws[p.name]| && Lookup(p.idx[..k], p.val[..k], x) == ws[p.name][x]
  {
    var n := k - 1;
    assert p.idx[..k][..n] == p.idx[..n] && p.val[..k][..n] == p.val[..n];
    if p.idx[n] != x {
      LookupCarried(p, ws, x, n);
    }
  }

  lemma GivenCarried(ws: Weights, p: FlushPiece, x: nat)
    requires CarriesValues(ws, p) && x < Numel(p.shape)
    ensures Given(p, x) == if x in p.idx then ws[p.name][x] else FILL
  {
    GivenIs(p, x);
    if x in p.idx {
      assert p.idx[..|p.idx|] == p.idx && p.val[..|p.idx|] == p.val;
      LookupCarried(p, ws, x, |p.idx|);
    }
  }

  lemma DeltaFits(old_: Weights, new_: Weights, slots: seq<FlushPiece>)
    requires SameSizes(old_, new_) && AllCarry(new_, slots)
    ensures AllFit(old_, slots) && AllWellFormed(slots) && Compatible(slots)
  {
    assert forall i :: 0 <= i < |slots| ==> CarriesValues(new_, slots[i]);
    forall p, q | p in slots && q in slots ensures Agree(p, q) {
      assert CarriesValues(new_, p) && CarriesValues(new_, q);
      forall x: nat | p.name == q.name && x < |new_[p.name]|
      ensures Given(p, x).NaN? || Given(q, x).NaN? || Given(p, x) == Given(q, x)
    {
        GivenCarried(new_, p, x);
        GivenCarried(new_, q, x);
      }
    }
  }

  /** After the deltas an element has its new value, unless that is NaN: then it keeps
      the old one. */
  lemma DeltaAt(old_: Weights, new_: Weights, slots: seq<FlushPiece>, n: string, x: nat)
    requires IsDelta(old_, new_, slots) && n in old_ && x < |old_[n]|
    ensures n in ApplyPieces(old_, slots) && |ApplyPieces(old_, slots)[n]| == |new_[n]|
    ensures ApplyPieces(old_, slots)[n][x] == if new_[n][x].NaN? then old_[n][x] else new_[n][x]
  {
    DeltaFits(old_, new_, slots);
    EffectAt(old_, slots, n, x);
    forall p | p in slots && p.name == n ensures Given(p, x) == if x in p.idx then new_[n][x] else FILL {
      assert CarriesValues(new_, p);
      GivenCarried(new_, p, x);
    }
    if old_[n][x] != new_[n][x] && !new_[n][x].NaN? {
      var p :| p in slots && p.name == n && x in p.idx;
      assert Gives(p, n, x);
    }
  }

  /** The deltas give the new weights if and only if no changed element is NaN
      afterwards. */
  lemma DeltaIsExactIff(old_: Weights, new_: Weights, slots: seq<FlushPiece>)
    requires IsDelta(old_, new_, slots)
    ensures ApplyPieces(old_, slots) == new_ <==> NoneChangesToNaN(old_, new_)
  {
    var after := ApplyPieces(old_, slots);
    ApplyKeepsShape(old_, slots);
    forall n | n in old_ ensures n in after && (after[n] == new_[n] <==> NoChangeToNaN(old_[n], new_[n])) {
      forall x | 0 <= x < |old_[n]| ensures after[n][x] == if new_[n][x].NaN? then old_[n][x] else new_[n][x] {
        DeltaAt(old_, new_, slots, n, x);
      }
    }
    if NoneChangesToNaN(old_, new_) {
      assert after.Keys == new_.Keys && forall n :: n in new_ ==> after[n] == new_[n];
    }
  }
}
