/** The indexed wire format of the delta engine: assembling flushes
    (verl/checkpoint_engine/delta_checkpoint_engine.py, _assemble_flush,
    _bucket_sliced) and decoding and applying them
    (verl/workers/rollout/sglang_rollout/delta_loader.py). */
module DeltaWire {
  import opened Arithmetic
  import opened ValueTypes
  import opened Wrappers
  import opened WeightChunks

  /** A value of a weight, by its bits: there are many NaNs and two zeros. Different
      bits of `Num` are different numbers. */
  datatype Float = NaN(payload: nat) | Zero(negative: bool) | Num(bits: int)

  /** The value of torch.full(..., nan): in a decoded delta any NaN means "unchanged". */
  const FILL: Float := NaN(0)

  type Weights = map<string, seq<Float>>

  /** A parameter's delta, or a slice of it: the name of the parameter's type, and the
      values with their own type, which may have been promoted on the way. */
  datatype FlushPiece =
    FlushPiece(name: string, dtype: string, shape: seq<nat>, vtype: ValueType, idx: seq<nat>, val: seq<Float>)

  datatype DeltaParam = DeltaParam(name: string, dtype: string, shape: seq<nat>,
                                   posStart: nat, posEnd: nat, posWidth: nat, valStart: nat, valEnd: nat)

  /** `vtype` is the type of the values buffer, if there are values. */
  datatype DeltaFlush =
    DeltaFlush(params: seq<DeltaParam>, positions: seq<byte>, values: seq<Float>, vtype: Option<ValueType>)

  // ---------- int32 positions ----------

  const INT32_BOUND := 0x8000_0000

  /** The four bytes of x after conversion to int32. */
  function ToInt32(x: nat): seq<byte> {
    [(x % 256) as byte, (x / 0x100 % 256) as byte, (x / 0x1_0000 % 256) as byte, (x / 0x100_0000 % 256) as byte]
  }

  /** Four bytes read as a signed int32. */
  function FromInt32(b: seq<byte>): int
    requires |b| == 4
  {
    var u := b[0] as int + 0x100 * b[1] as int + 0x1_0000 * b[2] as int + 0x100_0000 * b[3] as int;
    if u < INT32_BOUND then u else u - 2 * INT32_BOUND
  }

  /** A position survives the wire exactly when it is below 2^31; up to 2^32 it comes out
      negative. */
  lemma Int32RoundTrip(x: nat)
    ensures FromInt32(ToInt32(x)) == x <==> x < 0x8000_0000
    ensures 0x8000_0000 <= x < 0x1_0000_0000 ==> FromInt32(ToInt32(x)) == x - 0x1_0000_0000
  {
    var b0, b1, b2, b3 := x % 256, x / 0x100 % 256, x / 0x1_0000 % 256, x / 0x100_0000 % 256;
    assert x / 0x100 == x / 0x1_0000 * 256 + b1;
    assert x / 0x1_0000 == x / 0x100_0000 * 256 + b2;
    assert x / 0x100_0000 == x / 0x1_0000_0000 * 256 + b3;
    assert x == x / 0x1_0000_0000 * 0x1_0000_0000 + (b0 + 0x100 * b1 + 0x1_0000 * b2 + 0x100_0000 * b3);
  }

  function EncodePositions(idx: seq<nat>): (r: seq<byte>)
    ensures |r| == 4 * |idx|
  {
    if idx == [] then [] else EncodePositions(idx[..|idx| - 1]) + ToInt32(idx[|idx| - 1])
  }

  function DecodePositions(b: seq<byte>): seq<int>
    requires |b| % 4 == 0
  {
    if b == [] then [] else DecodePositions(b[..|b| - 4]) + [FromInt32(b[|b| - 4..])]
  }

  lemma {:induction false} PositionsRoundTrip(idx: seq<nat>)
    requires forall k :: 0 <= k < |idx| ==> idx[k] < INT32_BOUND
    ensures DecodePositions(EncodePositions(idx)) == idx
  {
    if idx != [] {
      var n := |idx| - 1;
      var b := EncodePositions(idx);
      PositionsRoundTrip(idx[..n]);
      Int32RoundTrip(idx[n]);
      assert b[..|b| - 4] == EncodePositions(idx[..n]) && b[|b| - 4..] == ToInt32(idx[n]);
      assert idx == idx[..n] + [idx[n]];
    }
  }

  // ---------- assembling a flush ----------

  predicate Encodable(pieces: seq<FlushPiece>) {
    forall i :: 0 <= i < |pieces| ==> Numel(pieces[i].shape) < INT32_BOUND
  }

  function ParamOf(p: FlushPiece, posOff: nat, valOff: nat): DeltaParam {
    DeltaParam(p.name, p.dtype, p.shape, posOff, posOff + 4 * |p.idx|, 4, valOff, valOff + |p.idx|)
  }

  function Assembled(pieces: seq<FlushPiece>): DeltaFlush {
    if pieces == [] then DeltaFlush([], [], [], None) else
      var n := |pieces| - 1;
      var f := Assembled(pieces[..n]);
      DeltaFlush(f.params + [ParamOf(pieces[n], |f.positions|, |f.values|)],
                 f.positions + EncodePositions(pieces[n].idx), f.values + pieces[n].val,
                 PromoteNext(f.vtype, pieces[n].vtype))
  }

  predicate WellFormed(p: FlushPiece) {
    && |p.idx| == |p.val|
    && (forall k :: 0 <= k < |p.idx| ==> p.idx[k] < Numel(p.shape))
    && (forall j, k :: 0 <= j < k < |p.idx| ==> p.idx[j] != p.idx[k])
  }

  predicate AllWellFormed(pieces: seq<FlushPiece>) {
    forall i :: 0 <= i < |pieces| ==> WellFormed(pieces[i])
  }

  /** None when the int32 assertion fires. The running offsets are the lengths of
      the buffers so far. */
  method AssembleFlush(perParam: seq<FlushPiece>) returns (r: Option<DeltaFlush>)
    requires AllWellFormed(perParam)
    ensures r == if Encodable(perParam) then Some(Assembled(perParam)) else None
  {
    var positions: seq<byte>, values: seq<Float>, params: seq<DeltaParam> := [], [], [];
    var posOff: nat, valOff: nat := 0, 0;
    var vtype: Option<ValueType> := None;
    for i := 0 to |perParam|
      invariant Assembled(perParam[..i]) == DeltaFlush(params, positions, values, vtype)
      invariant posOff == |positions| && valOff == |values| && Encodable(perParam[..i])
    {
      var piece := perParam[i];
      var nnz := |piece.idx|;
      if Numel(piece.shape) >= INT32_BOUND {
        return None;
      }
      assert WellFormed(piece);
      assert perParam[..i + 1][..i] == perParam[..i];
      positions := positions + EncodePositions(piece.idx);
      values := values + piece.val;
      vtype := PromoteNext(vtype, piece.vtype);
      params := params
          + [DeltaParam(piece.name, piece.dtype, piece.shape, posOff, posOff + nnz * 4, 4, valOff, valOff + nnz)];
      posOff := posOff + nnz * 4;
      valOff := valOff + nnz;
    }
    assert perParam[..|perParam|] == perParam;
    return Some(DeltaFlush(params, positions, values, vtype));
  }

  // ---------- the offset table ----------

  function PosEnds(f: DeltaFlush, k: nat): nat
    requires k <= |f.params|
  {
    if k == 0 then 0 else f.params[k - 1].posEnd
  }

  function ValEnds(f: DeltaFlush, k: nat): nat
    requires k <= |f.params|
  {
    if k == 0 then 0 else f.params[k - 1].valEnd
  }

  predicate TilesAt(f: DeltaFlush, k: nat)
    requires k < |f.params|
  {
    && f.params[k].posStart == PosEnds(f, k) <= f.params[k].posEnd
    && f.params[k].valStart == ValEnds(f, k) <= f.params[k].valEnd
  }

  /** The entries tile both buffers: each starts where the previous one ends, the
      first at 0, and the last ends at the end. */
  predicate Tiles(f: DeltaFlush) {
    && (forall k :: 0 <= k < |f.params| ==> TilesAt(f, k))
    && PosEnds(f, |f.params|) == |f.positions| && ValEnds(f, |f.params|) == |f.values|
  }

  lemma TilesAppend(f: DeltaFlush, p: FlushPiece, g: DeltaFlush)
    requires Tiles(f) && |p.idx| == |p.val|
    requires g == DeltaFlush(f.params + [ParamOf(p, |f.positions|, |f.values|)],
                             f.positions + EncodePositions(p.idx), f.values + p.val, g.vtype)
    ensures Tiles(g)
  {
    var n := |f.params|;
    forall k | 0 <= k < |g.params| ensures TilesAt(g, k) {
      assert k < n ==> TilesAt(f, k) && g.params[k] == f.params[k];
      assert 0 < k ==> g.params[k - 1] == f.params[k - 1];
      assert k == n ==> PosEnds(g, n) == PosEnds(f, n) && ValEnds(g, n) == ValEnds(f, n);
    }
  }

  lemma {:induction false} AssembledTiles(pieces: seq<FlushPiece>)
    requires AllWellFormed(pieces)
    ensures |Assembled(pieces).params| == |pieces| && Tiles(Assembled(pieces))
  {
    if pieces != [] {
      var n := |pieces| - 1;
      AssembledTiles(pieces[..n]);
      assert WellFormed(pieces[n]);
      TilesAppend(Assembled(pieces[..n]), pieces[n], Assembled(pieces));
    }
  }

  /** Entry k of the table describes piece p, with int32 positions, and cuts out exactly
      its positions and values. */
  predicate EntryOf(f: DeltaFlush, k: nat, p: FlushPiece) {
    && k < |f.params|
    && f.params[k].name == p.name && f.params[k].dtype == p.dtype && f.params[k].shape == p.shape
    && f.params[k].posWidth == 4
    && f.params[k].posEnd - f.params[k].posStart == f.params[k].posWidth * (f.params[k].valEnd - f.params[k].valStart)
    && f.params[k].posStart <= f.params[k].posEnd <= |f.positions|
    && f.params[k].valStart <= f.params[k].valEnd <= |f.values|
    && f.positions[f.params[k].posStart..f.params[k].posEnd] == EncodePositions(p.idx)
    && f.values[f.params[k].valStart..f.params[k].valEnd] == p.val
  }

  lemma EntryKept(f: DeltaFlush, g: DeltaFlush, k: nat, p: FlushPiece)
    requires EntryOf(f, k, p) && k < |g.params| && g.params[k] == f.params[k]
    requires f.positions <= g.positions && f.values <= g.values
    ensures EntryOf(g, k, p)
  {
    var e := f.params[k];
    assert g.positions[e.posStart..e.posEnd] == f.positions[e.posStart..e.posEnd];
    assert g.values[e.valStart..e.valEnd] == f.values[e.valStart..e.valEnd];
  }

  lemma LastEntry(f: DeltaFlush, p: FlushPiece, vtype: Option<ValueType>)
    requires |p.idx| == |p.val|
    ensures EntryOf(DeltaFlush(f.params + [ParamOf(p, |f.positions|, |f.values|)],
                               f.positions + EncodePositions(p.idx), f.values + p.val, vtype), |f.params|, p)
  {
  }

  lemma {:induction false} AssembledEntry(pieces: seq<FlushPiece>, k: nat)
    requires AllWellFormed(pieces) && k < |pieces|
    ensures |Assembled(pieces).params| == |pieces| && EntryOf(Assembled(pieces), k, pieces[k])
  {
    var n := |pieces| - 1;
    var f := Assembled(pieces[..n]);
    AssembledTiles(pieces[..n]);
    assert WellFormed(pieces[n]);
    if k < n {
      AssembledEntry(pieces[..n], k);
      EntryKept(f, Assembled(pieces), k, pieces[k]);
    } else {
      LastEntry(f, pieces[n], PromoteNext(f.vtype, pieces[n].vtype));
    }
  }

  // ---------- decoding ----------

  function NaNs(n: nat): seq<Float> {
    seq(n, _ => FILL)
  }

  /** flat.index_copy_(0, idx, vals) */
  function IndexCopy(flat: seq<Float>, idx: seq<int>, vals: seq<Float>): (r: seq<Float>)
    requires |idx| == |vals| && forall k :: 0 <= k < |idx| ==> 0 <= idx[k] < |flat|
    ensures |r| == |flat|
  {
    if idx == [] then flat else
      var n := |idx| - 1;
      IndexCopy(flat, idx[..n], vals[..n])[idx[n] := vals[n]]
  }

  /** The full-shape tensor that holds NaN at every unchanged position. */
  function Masked(p: FlushPiece): (r: seq<Float>)
    requires WellFormed(p)
    ensures |r| == Numel(p.shape)
  {
    IndexCopy(NaNs(Numel(p.shape)), p.idx, p.val)
  }

  predicate Decodable(f: DeltaFlush, k: nat) {
    && k < |f.params|
    && var p := f.params[k];
    && p.posStart <= p.posEnd <= |f.positions| && p.valStart <= p.valEnd <= |f.values|
    && p.posEnd - p.posStart == 4 * (p.valEnd - p.valStart)
    && var idx := DecodePositions(f.positions[p.posStart..p.posEnd]);
    |idx| == p.valEnd - p.valStart && forall j :: 0 <= j < |idx| ==> 0 <= idx[j] < Numel(p.shape)
  }

  /** A decoded tensor: the name of its type, its shape and its elements. */
  datatype Decoded = Decoded(dtype: string, shape: seq<nat>, flat: seq<Float>)

  /** _decode_one */
  function DecodeOne(f: DeltaFlush, k: nat): Decoded
    requires Decodable(f, k)
  {
    var p := f.params[k];
    var idx := DecodePositions(f.positions[p.posStart..p.posEnd]);
    Decoded(p.dtype, p.shape, IndexCopy(NaNs(Numel(p.shape)), idx, f.values[p.valStart..p.valEnd]))
  }

  /** The receiver decodes from the offset table what the sender put in each piece, with
      its type and shape. */
  lemma {:induction false} DecodeAssembled(pieces: seq<FlushPiece>, k: nat)
    requires AllWellFormed(pieces) && Encodable(pieces) && k < |pieces|
    ensures Decodable(Assembled(pieces), k)
    ensures DecodeOne(Assembled(pieces), k) == Decoded(pieces[k].dtype, pieces[k].shape, Masked(pieces[k]))
  {
    AssembledEntry(pieces, k);
    PositionsRoundTrip(pieces[k].idx);
  }

  // ---------- applying ----------

  /** copy_ under the mask: positions that hold NaN are skipped. */
  function MaskedCopy(w: seq<Float>, flat: seq<Float>): (r: seq<Float>)
    requires |w| == |flat|
    ensures |r| == |w|
  {
    seq(|w|, i requires 0 <= i < |w| => if flat[i].NaN? then w[i] else flat[i])
  }

  predicate Fits(ws: Weights, p: FlushPiece) {
    WellFormed(p) && p.name in ws && |ws[p.name]| == Numel(p.shape)
  }

  predicate AllFit(ws: Weights, pieces: seq<FlushPiece>) {
    forall i :: 0 <= i < |pieces| ==> Fits(ws, pieces[i])
  }

  /** A piece that does not fit makes the receiver raise; the claims below are about pieces that fit. */
  function ApplyPiece(ws: Weights, p: FlushPiece): Weights {
    if Fits(ws, p) then ws[p.name := MaskedCopy(ws[p.name], Masked(p))] else ws
  }

  /** The pieces one after the other. */
  function ApplyPieces(ws: Weights, pieces: seq<FlushPiece>): Weights {
    if pieces == [] then ws
    else ApplyPiece(ApplyPieces(ws, pieces[..|pieces| - 1]), pieces[|pieces| - 1])
  }

  /** Applying pieces keeps the names and sizes of the weights. */
  lemma {:induction false} ApplyKeepsShape(ws: Weights, pieces: seq<FlushPiece>)
    ensures ApplyPieces(ws, pieces).Keys == ws.Keys
    ensures forall n :: n in ws ==> |ApplyPieces(ws, pieces)[n]| == |ws[n]|
  {
    if pieces != [] {
      ApplyKeepsShape(ws, pieces[..|pieces| - 1]);
    }
  }

  lemma ApplyPiecesAppend(ws: Weights, pieces: seq<FlushPiece>, p: FlushPiece)
    ensures ApplyPieces(ws, pieces + [p]) == ApplyPiece(ApplyPieces(ws, pieces), p)
  {
    assert (pieces + [p])[..|pieces|] == pieces;
  }

  lemma {:induction false} ApplyPiecesConcat(ws: Weights, a: seq<FlushPiece>, b: seq<FlushPiece>)
    ensures ApplyPieces(ws, a + b) == ApplyPieces(ApplyPieces(ws, a), b)
  {
    if b == [] {
      assert a + b == a;
    } else {
      var n := |b| - 1;
      ApplyPiecesConcat(ws, a, b[..n]);
      ApplyPiecesAppend(ws, a + b[..n], b[n]);
      assert a + b == (a + b[..n]) + [b[n]];
    }
  }

  /** The value the delta gives position i, the fill value when it gives none. */
  function Lookup(idx: seq<nat>, val: seq<Float>, i: nat): Float
    requires |idx| == |val|
  {
    if idx == [] then FILL else
      var n := |idx| - 1;
      if idx[n] == i then val[n] else Lookup(idx[..n], val[..n], i)
  }

  lemma {:induction false} LookupNone(idx: seq<nat>, val: seq<Float>, i: nat)
    requires |idx| == |val| && i !in idx
    ensures Lookup(idx, val, i) == FILL
  {
    if idx != [] {
      LookupNone(idx[..|idx| - 1], val[..|idx| - 1], i);
    }
  }

  lemma {:induction false} LookupConcat(a: seq<nat>, u: seq<Float>, b: seq<nat>, v: seq<Float>, i: nat)
    requires |a| == |u| && |b| == |v|
    ensures Lookup(a + b, u + v, i) == if i in b then Lookup(b, v, i) else Lookup(a, u, i)
  {
    if b == [] {
      assert a + b == a && u + v == u;
    } else {
      var n := |b| - 1;
      assert (a + b)[..|a| + n] == a + b[..n] && (u + v)[..|u| + n] == u + v[..n];
      LookupConcat(a, u, b[..n], v[..n], i);
      assert b == b[..n] + [b[n]];
    }
  }

  lemma {:induction false} IndexCopyAt(flat: seq<Float>, idx: seq<nat>, val: seq<Float>, i: nat)
    requires |idx| == |val| && i < |flat| && forall k :: 0 <= k < |idx| ==> idx[k] < |flat|
    ensures IndexCopy(flat, idx, val)[i] == if i in idx then Lookup(idx, val, i) else flat[i]
  {
    if idx != [] {
      var n := |idx| - 1;
      IndexCopyAt(flat, idx[..n], val[..n], i);
      assert idx == idx[..n] + [idx[n]];
    }
  }

  lemma MaskedAt(p: FlushPiece, i: nat)
    requires WellFormed(p) && i < Numel(p.shape)
    ensures Masked(p)[i] == Lookup(p.idx, p.val, i)
  {
    IndexCopyAt(NaNs(Numel(p.shape)), p.idx, p.val, i);
    if i !in p.idx {
      LookupNone(p.idx, p.val, i);
    }
  }

  /** Overwriting every position of the delta with its value, NaN or not. */
  function Scatter(w: seq<Float>, idx: seq<nat>, val: seq<Float>): seq<Float>
    requires |idx| == |val| && forall k :: 0 <= k < |idx| ==> idx[k] < |w|
  {
    IndexCopy(w, idx, val)
  }

  /** No element changes to NaN, be it from a number or from another NaN. */
  predicate NoChangeToNaN(old_: seq<Float>, new_: seq<Float>) {
    |old_| == |new_| && forall i :: 0 <= i < |old_| && old_[i] != new_[i] ==> !new_[i].NaN?
  }

  /** The masked copy overwrites exactly the positions of the delta with its values,
      if and only if no changed element is NaN afterwards. */
  lemma ApplyIsScatterIff(w: seq<Float>, p: FlushPiece)
    requires WellFormed(p) && |w| == Numel(p.shape)
    ensures MaskedCopy(w, Masked(p)) == Scatter(w, p.idx, p.val) <==> NoChangeToNaN(w, Scatter(w, p.idx, p.val))
  {
    var a, b := MaskedCopy(w, Masked(p)), Scatter(w, p.idx, p.val);
    forall i | 0 <= i < |w| ensures a[i] == b[i] <==> (w[i] != b[i] ==> !b[i].NaN?) {
      MaskedAt(p, i);
      IndexCopyAt(w, p.idx, p.val, i);
      if i !in p.idx {
        LookupNone(p.idx, p.val, i);
      }
    }
    if a != b {
      var i :| 0 <= i < |w| && a[i] != b[i];
    }
  }

  // ---------- slicing ----------

  function SlicePiece(p: FlushPiece, lo: nat, hi: nat): FlushPiece {
    if lo <= hi <= |p.idx| == |p.val| then p.(idx := p.idx[lo..hi], val := p.val[lo..hi]) else p
  }

  function Slices(p: FlushPiece, from: nat, maxElems: nat): seq<FlushPiece>
    requires maxElems > 0
    decreases |p.idx| - from
  {
    if from >= |p.idx| then [] else
      [SlicePiece(p, from, Min(from + maxElems, |p.idx|))] + Slices(p, from + maxElems, maxElems)
  }

  lemma SliceWellFormed(p: FlushPiece, lo: nat, hi: nat)
    requires WellFormed(p) && lo <= hi <= |p.idx|
    ensures WellFormed(SlicePiece(p, lo, hi))
  {
  }

  /** Applying the first part of a delta and then the rest is applying it whole. */
  lemma ApplySplit(w: seq<Float>, p: FlushPiece, first: FlushPiece, second: FlushPiece)
    requires WellFormed(p) && WellFormed(first) && WellFormed(second)
    requires first.shape == second.shape == p.shape && |w| == Numel(p.shape)
    requires p.idx == first.idx + second.idx && p.val == first.val + second.val
    ensures MaskedCopy(MaskedCopy(w, Masked(first)), Masked(second)) == MaskedCopy(w, Masked(p))
  {
    var a, b := MaskedCopy(MaskedCopy(w, Masked(first)), Masked(second)), MaskedCopy(w, Masked(p));
    forall i | 0 <= i < |w| ensures a[i] == b[i] {
      MaskedAt(p, i);
      MaskedAt(first, i);
      MaskedAt(second, i);
      LookupConcat(first.idx, first.val, second.idx, second.val, i);
      if i in second.idx {
        NotInBoth(p, first, second, i);
        LookupNone(first.idx, first.val, i);
      } else {
        LookupNone(second.idx, second.val, i);
      }
    }
  }

  lemma NotInBoth(p: FlushPiece, first: FlushPiece, second: FlushPiece, i: nat)
    requires WellFormed(p) && p.idx == first.idx + second.idx && i in second.idx
    ensures i !in first.idx
  {
    var k :| 0 <= k < |second.idx| && second.idx[k] == i;
    forall j | 0 <= j < |first.idx| ensures first.idx[j] != i {
      assert p.idx[j] != p.idx[|first.idx| + k];
    }
  }

  /** Applying nothing. */
  lemma ApplyEmpty(ws: Weights, p: FlushPiece)
    requires Fits(ws, p) && p.idx == []
    ensures ApplyPiece(ws, p) == ws
  {
    assert MaskedCopy(ws[p.name], Masked(p)) == ws[p.name];
    assert ws == ws[p.name := ws[p.name]];
  }

  lemma ApplyTwoPieces(ws: Weights, p: FlushPiece, first: FlushPiece, second: FlushPiece)
    requires Fits(ws, p) && WellFormed(first) && WellFormed(second)
    requires first.name == second.name == p.name && first.shape == second.shape == p.shape
    requires p.idx == first.idx + second.idx && p.val == first.val + second.val
    ensures Fits(ws, first) && Fits(ApplyPiece(ws, first), second)
    ensures ApplyPiece(ApplyPiece(ws, first), second) == ApplyPiece(ws, p)
  {
    ApplySplit(ws[p.name], p, first, second);
  }

  /** Slicing a delta is transparent to the receiver. */
  lemma {:induction false} ApplySlices(ws: Weights, p: FlushPiece, from: nat, maxElems: nat)
    requires maxElems > 0 && Fits(ws, p) && from <= |p.idx|
    ensures Fits(ws, SlicePiece(p, from, |p.idx|))
    ensures ApplyPieces(ws, Slices(p, from, maxElems)) == ApplyPiece(ws, SlicePiece(p, from, |p.idx|))
    decreases |p.idx| - from
  {
    var whole := SlicePiece(p, from, |p.idx|);
    SliceWellFormed(p, from, |p.idx|);
    if from == |p.idx| {
      ApplyEmpty(ws, whole);
    } else {
      var hi := Min(from + maxElems, |p.idx|);
      var head, tail := SlicePiece(p, from, hi), SlicePiece(p, hi, |p.idx|);
      SliceWellFormed(p, from, hi);
      SliceWellFormed(p, hi, |p.idx|);
      ApplyTwoPieces(ws, whole, head, tail);
      ApplySlices(ApplyPiece(ws, head), p, hi, maxElems);
      SlicesEnd(p, from + maxElems, maxElems);
      ApplyPiecesConcat(ws, [head], Slices(p, hi, maxElems));
      assert [head][..0] == [];
    }
  }

  lemma SlicesEnd(p: FlushPiece, from: nat, maxElems: nat)
    requires maxElems > 0
    ensures Slices(p, from, maxElems) == Slices(p, Min(from, |p.idx|), maxElems)
  {
  }
}
