/** Where the elements of a shard lie in the whole parameter
    (verl/workers/engine/spec.py, BlockPlacement, translate_flat_indices): a shard is a
    hyper-rectangular block, and its flat positions are translated to flat positions of
    the whole by decomposing and recomposing them with row-major strides. */
module ShardPlacements {
  import opened Arithmetic
  import opened WeightChunks

  // ---------- coordinates ----------

  function FlatOf(coords: seq<nat>, shape: seq<nat>): nat
    requires |coords| == |shape|
  {
    if shape == [] then 0 else coords[0] * Numel(shape[1..]) + FlatOf(coords[1..], shape[1..])
  }

  predicate InShape(coords: seq<nat>, shape: seq<nat>) {
    |coords| == |shape| && forall d :: 0 <= d < |shape| ==> coords[d] < shape[d]
  }

  /** The coordinates of flat position x. */
  function CoordsOf(x: nat, shape: seq<nat>): (r: seq<nat>)
    ensures |r| == |shape|
  {
    if shape == [] then [] else
      var stride := Numel(shape[1..]);
      if stride == 0 then [0] + CoordsOf(x, shape[1..]) else [x / stride] + CoordsOf(x % stride, shape[1..])
  }

  lemma Below(c: nat, d: nat, stride: nat, rest: nat, x: nat)
    requires c < d && rest < stride && x == c * stride + rest
    ensures x < d * stride && x / stride == c && x % stride == rest
  {
    ModOf(c, stride, rest);
    Monotone(c + 1, d, stride);
    FlatLength(c, stride);
  }

  lemma {:induction false} CoordsOfFlat(coords: seq<nat>, shape: seq<nat>)
    requires InShape(coords, shape)
    ensures FlatOf(coords, shape) < Numel(shape) && CoordsOf(FlatOf(coords, shape), shape) == coords
  {
    if shape != [] {
      CoordsOfFlat(coords[1..], shape[1..]);
      Below(coords[0], shape[0], Numel(shape[1..]), FlatOf(coords[1..], shape[1..]), FlatOf(coords, shape));
    }
  }

  lemma Quotient(x: nat, d: nat, stride: nat, q: nat, r: nat)
    requires x < d * stride && stride > 0 && q == x / stride && r == x % stride
    ensures q < d && r < stride && x == q * stride + r
  {
    DivMod(x, stride, q, r);
    if q >= d {
      Monotone(d, q, stride);
    }
  }

  lemma {:induction false} FlatOfCoords(x: nat, shape: seq<nat>)
    requires x < Numel(shape)
    ensures InShape(CoordsOf(x, shape), shape) && FlatOf(CoordsOf(x, shape), shape) == x
  {
    if shape != [] {
      var stride := Numel(shape[1..]);
      assert stride > 0;
      Quotient(x, shape[0], stride, x / stride, x % stride);
      FlatOfCoords(x % stride, shape[1..]);
    }
  }

  // ---------- blocks ----------

  /** full[o0 : o0 + l0, o1 : o1 + l1, ...] */
  datatype BlockPlacement = BlockPlacement(localShape: seq<nat>, globalOffset: seq<nat>)

  predicate BlockFits(b: BlockPlacement, shape: seq<nat>) {
    && |b.localShape| == |b.globalOffset| == |shape|
    && forall d :: 0 <= d < |shape| ==> b.globalOffset[d] + b.localShape[d] <= shape[d]
  }

  predicate InBlock(coords: seq<nat>, b: BlockPlacement) {
    && |coords| == |b.localShape| == |b.globalOffset|
    && forall d :: 0 <= d < |coords| ==> b.globalOffset[d] <= coords[d] < b.globalOffset[d] + b.localShape[d]
  }

  function Shifted(coords: seq<nat>, offset: seq<nat>): (r: seq<nat>)
    requires |coords| == |offset|
    ensures |r| == |coords| && forall d :: 0 <= d < |r| ==> r[d] == coords[d] + offset[d]
  {
    seq(|coords|, d requires 0 <= d < |coords| => coords[d] + offset[d])
  }

  /** The position in the whole of position x of the block. */
  function Embed(x: nat, b: BlockPlacement, shape: seq<nat>): nat
    requires BlockFits(b, shape)
  {
    FlatOf(Shifted(CoordsOf(x, b.localShape), b.globalOffset), shape)
  }

  /** A position of the block lies inside it ... */
  lemma EmbedIn(x: nat, b: BlockPlacement, shape: seq<nat>)
    requires BlockFits(b, shape) && x < Numel(b.localShape)
    ensures Embed(x, b, shape) < Numel(shape) && InBlock(CoordsOf(Embed(x, b, shape), shape), b)
    ensures CoordsOf(Embed(x, b, shape), shape) == Shifted(CoordsOf(x, b.localShape), b.globalOffset)
  {
    FlatOfCoords(x, b.localShape);
    CoordsOfFlat(Shifted(CoordsOf(x, b.localShape), b.globalOffset), shape);
  }

  /** ... different positions lie at different places ... */
  lemma EmbedInjective(x: nat, y: nat, b: BlockPlacement, shape: seq<nat>)
    requires BlockFits(b, shape) && x < Numel(b.localShape) && y < Numel(b.localShape)
    requires Embed(x, b, shape) == Embed(y, b, shape)
    ensures x == y
  {
    EmbedIn(x, b, shape);
    EmbedIn(y, b, shape);
    FlatOfCoords(x, b.localShape);
    FlatOfCoords(y, b.localShape);
    var p, q := CoordsOf(x, b.localShape), CoordsOf(y, b.localShape);
    forall d | 0 <= d < |p| ensures p[d] == q[d] {
      assert Shifted(p, b.globalOffset)[d] == Shifted(q, b.globalOffset)[d];
    }
    assert p == q;
  }

  /** ... and every place inside it is one of them. */
  lemma EmbedOnto(y: nat, b: BlockPlacement, shape: seq<nat>) returns (x: nat)
    requires BlockFits(b, shape) && y < Numel(shape) && InBlock(CoordsOf(y, shape), b)
    ensures x < Numel(b.localShape) && Embed(x, b, shape) == y
  {
    var coords := CoordsOf(y, shape);
    var local := seq(|coords|, d requires 0 <= d < |coords| => coords[d] - b.globalOffset[d] as nat);
    x := FlatOf(local, b.localShape);
    CoordsOfFlat(local, b.localShape);
    FlatOfCoords(y, shape);
    assert Shifted(local, b.globalOffset) == coords;
  }

  // ---------- translating ----------

  /** _row_major_strides */
  method RowMajorStrides(shape: seq<nat>) returns (strides: seq<nat>)
    ensures |strides| == |shape| && forall d :: 0 <= d < |shape| ==> strides[d] == Numel(shape[d + 1..])
  {
    strides := [];
    var acc := 1;
    var i := |shape|;
    while i > 0
      invariant 0 <= i <= |shape| && |strides| == |shape| - i && acc == Numel(shape[i..])
      invariant forall e :: 0 <= e < |strides| ==> strides[e] == Numel(shape[i + e + 1..])
    {
      i := i - 1;
      strides := [acc] + strides;
      assert shape[i..][1..] == shape[i + 1..];
      acc := shape[i] * acc;
    }
  }

  predicate IsFlatContiguous(b: BlockPlacement, shape: seq<nat>) {
    |b.localShape| == |shape| && forall d :: 0 < d < |shape| ==> b.localShape[d] == shape[d]
  }

  function FlatOffset(b: BlockPlacement, shape: seq<nat>): nat
    requires |b.globalOffset| == |shape|
  {
    if shape == [] then 0 else b.globalOffset[0] * Numel(shape[1..])
  }

  lemma ShiftedByNothing(coords: seq<nat>, offset: seq<nat>)
    requires |coords| == |offset| && forall d :: 0 <= d < |offset| ==> offset[d] == 0
    ensures Shifted(coords, offset) == coords
  {
  }

  /** A block that cuts the first dimension only is one flat range. */
  lemma ContiguousEmbed(x: nat, b: BlockPlacement, shape: seq<nat>)
    requires BlockFits(b, shape) && IsFlatContiguous(b, shape) && x < Numel(b.localShape)
    ensures Embed(x, b, shape) == x + FlatOffset(b, shape)
  {
    FlatOfCoords(x, b.localShape);
    if shape != [] {
      var coords := CoordsOf(x, b.localShape);
      assert b.localShape[1..] == shape[1..];
      var offset := b.globalOffset[1..];
      forall d | 0 <= d < |offset| ensures offset[d] == 0 {
        assert offset[d] == b.globalOffset[d + 1];
      }
      ShiftedByNothing(coords[1..], offset);
      assert Shifted(coords, b.globalOffset)[1..] == Shifted(coords[1..], b.globalOffset[1..]);
      Distribute(coords[0], b.globalOffset[0], Numel(shape[1..]));
    }
  }

  /** What is still to be added for the dimensions from d on. */
  ghost function Rest(rem: nat, d: nat, b: BlockPlacement, shape: seq<nat>): nat
    requires BlockFits(b, shape) && d <= |shape|
  {
    FlatOf(Shifted(CoordsOf(rem, b.localShape[d..]), b.globalOffset[d..]), shape[d..])
  }

  lemma RestStep(rem: nat, d: nat, b: BlockPlacement, shape: seq<nat>, lstride: nat, fstride: nat, coord: nat,
                 next: nat)
    requires BlockFits(b, shape) && d < |shape| && rem < Numel(b.localShape[d..])
    requires lstride == Numel(b.localShape[d + 1..]) && fstride == Numel(shape[d + 1..])
    requires lstride > 0 ==> coord == rem / lstride && next == rem % lstride
    ensures lstride > 0 && next < lstride && rem == coord * lstride + next
    ensures Rest(rem, d, b, shape) == (coord + b.globalOffset[d]) * fstride + Rest(next, d + 1, b, shape)
  {
    var local, offset, full := b.localShape[d..], b.globalOffset[d..], shape[d..];
    assert local[1..] == b.localShape[d + 1..] && full[1..] == shape[d + 1..] && offset[1..] == b.globalOffset[d + 1..];
    assert lstride > 0;
    Quotient(rem, local[0], lstride, coord, next);
    var coords := CoordsOf(rem, local);
    assert coords == [coord] + CoordsOf(next, local[1..]);
    assert Shifted(coords, offset)[1..] == Shifted(coords[1..], offset[1..]);
  }

  /** The coordinate of the remaining position in dimension d. */
  method Coord(rem: nat, d: nat, b: BlockPlacement, shape: seq<nat>, lstride: nat) returns (coord: nat, ghost next: nat)
    requires BlockFits(b, shape) && d < |shape| && rem < Numel(b.localShape[d..])
    requires lstride == Numel(b.localShape[d + 1..])
    ensures lstride > 0 && coord == rem / lstride && next == rem % lstride
    ensures rem - coord * lstride == next < Numel(b.localShape[d + 1..])
  {
    assert b.localShape[d..][1..] == b.localShape[d + 1..];
    coord := rem / lstride;
    next := rem % lstride;
    Quotient(rem, b.localShape[d], lstride, coord, next);
  }

  /** One position through the loop over the dimensions. */
  method TranslateOne(x: nat, b: BlockPlacement, shape: seq<nat>) returns (out: nat)
    requires BlockFits(b, shape) && x < Numel(b.localShape)
    ensures out == Embed(x, b, shape)
  {
    var lstrides := RowMajorStrides(b.localShape);
    var fstrides := RowMajorStrides(shape);
    var rem: nat := x;
    out := 0;
    assert b.localShape[0..] == b.localShape && b.globalOffset[0..] == b.globalOffset && shape[0..] == shape;
    for d := 0 to |shape|
      invariant rem < Numel(b.localShape[d..]) && out + Rest(rem, d, b, shape) == Embed(x, b, shape)
    {
      ghost var next;
      var coord;
      coord, next := Coord(rem, d, b, shape, lstrides[d]);
      RestStep(rem, d, b, shape, lstrides[d], fstrides[d], coord, next);
      rem := rem - coord * lstrides[d];
      out := out + (coord + b.globalOffset[d]) * fstrides[d];
    }
    assert Rest(rem, |shape|, b, shape) == 0;
  }

  // ---------- placements ----------

  /** An offset for a flat range of so many elements, or a block. */
  datatype Place = Range(offset: nat, size: nat) | Block(block: BlockPlacement)

  predicate PlaceFits(p: Place, shape: seq<nat>) {
    match p
    case Range(offset, size) => offset + size <= Numel(shape)
    case Block(b) => BlockFits(b, shape)
  }

  function SizeOf(p: Place): nat {
    match p
    case Range(_, size) => size
    case Block(b) => Numel(b.localShape)
  }

  function At(p: Place, shape: seq<nat>, x: nat): nat
    requires PlaceFits(p, shape)
  {
    match p
    case Range(offset, _) => x + offset
    case Block(b) => Embed(x, b, shape)
  }

  /** Element y of the whole lies in the shard. */
  predicate Owns(p: Place, shape: seq<nat>, y: nat) {
    match p
    case Range(offset, size) => offset <= y < offset + size
    case Block(b) => InBlock(CoordsOf(y, shape), b)
  }

  lemma AtIn(p: Place, shape: seq<nat>, x: nat)
    requires PlaceFits(p, shape) && x < SizeOf(p)
    ensures At(p, shape, x) < Numel(shape) && Owns(p, shape, At(p, shape, x))
  {
    if p.Block? {
      EmbedIn(x, p.block, shape);
    }
  }

  lemma AtInjective(p: Place, shape: seq<nat>, x: nat, y: nat)
    requires PlaceFits(p, shape) && x < SizeOf(p) && y < SizeOf(p) && At(p, shape, x) == At(p, shape, y)
    ensures x == y
  {
    if p.Block? {
      EmbedInjective(x, y, p.block, shape);
    }
  }

  lemma AtOnto(p: Place, shape: seq<nat>, y: nat) returns (x: nat)
    requires PlaceFits(p, shape) && y < Numel(shape) && Owns(p, shape, y)
    ensures x < SizeOf(p) && At(p, shape, x) == y
  {
    if p.Block? {
      x := EmbedOnto(y, p.block, shape);
    } else {
      x := y - p.offset;
    }
  }

  function AllAt(p: Place, shape: seq<nat>, idx: seq<nat>): (r: seq<nat>)
    requires PlaceFits(p, shape)
    ensures |r| == |idx| && forall k :: 0 <= k < |r| ==> r[k] == At(p, shape, idx[k])
  {
    seq(|idx|, k requires 0 <= k < |idx| => At(p, shape, idx[k]))
  }

  function Plus(idx: seq<nat>, offset: nat): (r: seq<nat>)
    ensures |r| == |idx| && forall k :: 0 <= k < |idx| ==> r[k] == idx[k] + offset
  {
    seq(|idx|, k requires 0 <= k < |idx| => idx[k] + offset)
  }

  /** translate_flat_indices: the fast path of a flat range and the general one agree. */
  method Translate(idx: seq<nat>, p: Place, shape: seq<nat>) returns (out: seq<nat>)
    requires PlaceFits(p, shape) && forall k :: 0 <= k < |idx| ==> idx[k] < SizeOf(p)
    ensures out == AllAt(p, shape, idx)
  {
    if p.Range? {
      return Plus(idx, p.offset);
    }
    var b := p.block;
    if IsFlatContiguous(b, shape) {
      out := Plus(idx, FlatOffset(b, shape));
      forall k | 0 <= k < |idx| ensures out[k] == At(p, shape, idx[k]) {
        ContiguousEmbed(idx[k], b, shape);
      }
      return;
    }
    out := [];
    for k := 0 to |idx|
      invariant |out| == k && forall j :: 0 <= j < k ==> out[j] == At(p, shape, idx[j])
    {
      var y := TranslateOne(idx[k], b, shape);
      out := out + [y];
    }
  }
}
