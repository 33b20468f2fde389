/** The bytes that a steady synchronisation reports and those it publishes
    (verl/checkpoint_engine/delta_checkpoint_engine.py, send_weights, _assemble_flush). */
module WireBytes {
  import opened Arithmetic
  import opened DeltaBuckets
  import opened DeltaEngine
  import opened DeltaMessages
  import opened DeltaWire
  import opened FlushBuckets
  import opened ValueTypes
  import opened Wrappers

  function SizeOfType(vtype: Option<ValueType>): nat {
    if vtype.Some? then vtype.value.Size() else 0
  }

  /** The bytes broadcast for an indexed message: both buffers. */
  function MessageBytes(m: Message): nat {
    if m.Indexed? then |m.flush.positions| + |m.flush.values| * SizeOfType(m.flush.vtype) else 0
  }

  function PublishedBytes(messages: seq<Message>): nat {
    if messages == [] then 0 else
      PublishedBytes(messages[..|messages| - 1]) + MessageBytes(messages[|messages| - 1])
  }

  function Elements(pieces: seq<FlushPiece>): nat {
    if pieces == [] then 0 else Elements(pieces[..|pieces| - 1]) + |pieces[|pieces| - 1].idx|
  }

  function TypesOf(pieces: seq<FlushPiece>): seq<ValueType> {
    seq(|pieces|, i requires 0 <= i < |pieces| => pieces[i].vtype)
  }

  /** The values of every piece have the size of the flush's type. */
  predicate OneSize(pieces: seq<FlushPiece>) {
    forall i :: 0 <= i < |pieces| ==> pieces[i].vtype.Size() == SizeOfType(PromoteAll(TypesOf(pieces)))
  }

  predicate NoneEmpty(pieces: seq<FlushPiece>) {
    forall i :: 0 <= i < |pieces| ==> pieces[i].idx != []
  }

  lemma {:induction false} AssembledSizes(pieces: seq<FlushPiece>)
    requires AllWellFormed(pieces)
    ensures |Assembled(pieces).positions| == 4 * Elements(pieces) && |Assembled(pieces).values| == Elements(pieces)
    ensures Assembled(pieces).vtype == PromoteAll(TypesOf(pieces))
  {
    if pieces != [] {
      var n := |pieces| - 1;
      AssembledSizes(pieces[..n]);
      assert WellFormed(pieces[n]);
      assert TypesOf(pieces)[..n] == TypesOf(pieces[..n]);
    }
  }

  lemma {:induction false} PromotedIsLargest(types: seq<ValueType>)
    ensures forall i :: 0 <= i < |types| ==> types[i].Size() <= SizeOfType(PromoteAll(types))
  {
    if types != [] {
      var n := |types| - 1;
      PromotedIsLargest(types[..n]);
      assert forall i :: 0 <= i < n ==> types[..n][i] == types[i];
    }
  }

  /** n values of `size` bytes counted as such, and as `whole` bytes. */
  lemma CountedPiece(n: nat, size: nat, whole: nat)
    requires size <= whole && n > 0
    ensures n * (4 + size) <= n * (4 + whole) && (n * (4 + size) == n * (4 + whole) <==> size == whole)
  {
    Distribute(4 + size, whole - size, n);
    if size < whole {
      Positive(whole - size, n);
    }
  }

  /** Counted with their own sizes, the pieces make at most what they make with the size
      of the flush's type, and as much if and only if all have that size. */
  lemma {:induction false} CountedAtMost(pieces: seq<FlushPiece>, size: nat)
    requires NoneEmpty(pieces) && forall i :: 0 <= i < |pieces| ==> pieces[i].vtype.Size() <= size
    ensures TotalWire(pieces) <= Elements(pieces) * (4 + size)
    ensures TotalWire(pieces) == Elements(pieces) * (4 + size)
            <==> forall i :: 0 <= i < |pieces| ==> pieces[i].vtype.Size() == size
  {
    if pieces != [] {
      var n := |pieces| - 1;
      assert forall i :: 0 <= i < n ==> pieces[..n][i] == pieces[i];
      CountedAtMost(pieces[..n], size);
      CountedPiece(|pieces[n].idx|, pieces[n].vtype.Size(), size);
      Distribute(Elements(pieces[..n]), |pieces[n].idx|, 4 + size);
    }
  }

  lemma PerElement(n: nat, size: nat)
    ensures 4 * n + n * size == n * (4 + size)
  {
  }

  lemma FlushBytesIff(pieces: seq<FlushPiece>, isLast: bool)
    requires AllWellFormed(pieces) && NoneEmpty(pieces)
    ensures TotalWire(pieces) <= MessageBytes(Indexed(Assembled(pieces), isLast))
    ensures TotalWire(pieces) == MessageBytes(Indexed(Assembled(pieces), isLast)) <==> OneSize(pieces)
  {
    var size := SizeOfType(PromoteAll(TypesOf(pieces)));
    AssembledSizes(pieces);
    PromotedIsLargest(TypesOf(pieces));
    assert forall i :: 0 <= i < |pieces| ==> TypesOf(pieces)[i] == pieces[i].vtype;
    CountedAtMost(pieces, size);
    PerElement(Elements(pieces), size);
  }

  predicate AllOneSize(published: seq<Published<FlushPiece>>) {
    forall k :: 0 <= k < |published| ==> OneSize(Pieces(published[k].flush))
  }

  lemma NoneEmptyConcat(a: seq<FlushPiece>, b: seq<FlushPiece>)
    ensures NoneEmpty(a + b) <==> NoneEmpty(a) && NoneEmpty(b)
  {
    var c := a + b;
    assert forall i :: 0 <= i < |a| ==> c[i] == a[i];
    assert forall i :: 0 <= i < |b| ==> c[|a| + i] == b[i];
  }

  lemma LastOneSize(published: seq<Published<FlushPiece>>)
    requires published != []
    ensures var n := |published| - 1;
            AllOneSize(published) <==> AllOneSize(published[..n]) && OneSize(Pieces(published[n].flush))
  {
    var n := |published| - 1;
    assert forall k :: 0 <= k < n ==> published[..n][k] == published[k];
  }

  lemma {:induction false} IndexedBytesIff(published: seq<Published<FlushPiece>>)
    requires AllWellFormed(AllPieces(published)) && NoneEmpty(AllPieces(published))
    ensures TotalWire(AllPieces(published)) <= PublishedBytes(IndexedOf(published))
    ensures TotalWire(AllPieces(published)) == PublishedBytes(IndexedOf(published)) <==> AllOneSize(published)
  {
    if published != [] {
      var n := |published| - 1;
      var earlier, pieces := AllPieces(published[..n]), Pieces(published[n].flush);
      AllConcat(earlier, pieces);
      NoneEmptyConcat(earlier, pieces);
      IndexedBytesIff(published[..n]);
      FlushBytesIff(pieces, published[n].isLast);
      LastOneSize(published);
      SlicedConcat(earlier, pieces);
      LastBytes(IndexedOf(published[..n]), Indexed(Assembled(pieces), published[n].isLast));
    }
  }

  lemma LastBytes(messages: seq<Message>, m: Message)
    ensures PublishedBytes(messages + [m]) == PublishedBytes(messages) + MessageBytes(m)
  {
    assert (messages + [m])[..|messages|] == messages;
  }

  /** `c` bytes for each value and its position. */
  lemma {:induction false} SlicesWire(p: FlushPiece, from: nat, maxElems: nat, c: nat)
    requires WellFormed(p) && maxElems > 0 && from <= |p.idx| && c == 4 + p.vtype.Size()
    ensures TotalWire(Slices(p, from, maxElems)) == (|p.idx| - from) * c
    decreases |p.idx| - from
  {
    if from < |p.idx| {
      var end := Min(from + maxElems, |p.idx|);
      var slice := SlicePiece(p, from, end);
      SlicesWire(p, end, maxElems, c);
      SlicesEnd(p, from + maxElems, maxElems);
      SlicedConcat([slice], Slices(p, end, maxElems));
      assert [slice][..0] == [] && TotalWire([slice]) == WireSize(slice) == (end - from) * c;
      Distribute(end - from, |p.idx| - end, c);
    }
  }

  lemma {:induction false} SlicesNotEmpty(p: FlushPiece, from: nat, maxElems: nat)
    requires WellFormed(p) && maxElems > 0
    ensures NoneEmpty(Slices(p, from, maxElems))
    decreases |p.idx| - from
  {
    if from < |p.idx| {
      SlicesNotEmpty(p, from + maxElems, maxElems);
    }
  }

  lemma SlotWire(p: FlushPiece)
    requires WellFormed(p)
    ensures TotalWire(Slices(p, 0, MAX_ENTRY_ELEMS)) == WireSize(p) && NoneEmpty(Slices(p, 0, MAX_ENTRY_ELEMS))
  {
    SlicesWire(p, 0, MAX_ENTRY_ELEMS, 4 + p.vtype.Size());
    SlicesNotEmpty(p, 0, MAX_ENTRY_ELEMS);
  }

  /** Slicing does not change the wire size, and no slice is empty. */
  lemma {:induction false} SlicedWire(slots: seq<FlushPiece>)
    requires AllWellFormed(slots)
    ensures TotalWire(Pieces(Sliced(slots))) == TotalWire(slots) && NoneEmpty(Pieces(Sliced(slots)))
  {
    if slots != [] {
      var n := |slots| - 1;
      SlicedWire(slots[..n]);
      SlicedLast(slots);
      assert WellFormed(slots[n]);
      SlotWire(slots[n]);
      SlicedConcat(Pieces(Sliced(slots[..n])), Slices(slots[n], 0, MAX_ENTRY_ELEMS));
      NoneEmptyConcat(Pieces(Sliced(slots[..n])), Slices(slots[n], 0, MAX_ENTRY_ELEMS));
    }
  }

  /** The values of every flush have one size: that of the type they are promoted to. */
  predicate FlushesOfOneSize(slots: seq<FlushPiece>, cap: int) {
    forall k :: 0 <= k < |Flushes(Sliced(slots), cap)| ==> OneSize(Pieces(Flushes(Sliced(slots), cap)[k]))
  }

  /** The reported wire bytes are at most the bytes published, and equal to them if and
      only if in every flush all values have the size of the flush's promoted type. */
  lemma WireBytesIff(slots: seq<FlushPiece>, cap: int, verify: bool)
    requires AllWellFormed(slots)
    ensures TotalWire(slots) <= PublishedBytes(SteadyMessages(slots, cap, verify))
    ensures TotalWire(slots) == PublishedBytes(SteadyMessages(slots, cap, verify)) <==> FlushesOfOneSize(slots, cap)
  {
    var published := Stream(Flushes(Sliced(slots), cap), !verify);
    StreamPieces(Sliced(slots), cap, !verify);
    SlicedWellFormed(slots);
    SlicedWire(slots);
    IndexedBytesIff(published);
    StreamOfOneSize(Flushes(Sliced(slots), cap), !verify);
    if Sliced(slots) == [] && !verify {
      LastBytes([], Terminal(false));
      assert [] + [Terminal(false)] == [Terminal(false)];
      CutNonEmpty(Sliced(slots), cap);
    }
  }

  lemma StreamOfOneSize(flushes: seq<seq<Sized<FlushPiece>>>, isLast: bool)
    ensures AllOneSize(Stream(flushes, isLast)) <==> forall k :: 0 <= k < |flushes| ==> OneSize(Pieces(flushes[k]))
  {
    StreamIs(flushes, isLast);
    assert forall k :: 0 <= k < |flushes| ==> Stream(flushes, isLast)[k].flush == flushes[k];
  }

  /** One two-byte and one four-byte value in one flush: 14 bytes are reported, 16 published. */
  lemma MixedTypesUndercount(value: Float, cap: int)
    requires cap > 6
    ensures var a := FlushPiece("a", "bfloat16", [1], BFloat16, [0], [value]);
            var b := FlushPiece("b", "float32", [1], Float32, [0], [value]);
            TotalWire([a, b]) == 14 && PublishedBytes(SteadyMessages([a, b], cap, false)) == 16
  {
    var a := FlushPiece("a", "bfloat16", [1], BFloat16, [0], [value]);
    var b := FlushPiece("b", "float32", [1], Float32, [0], [value]);
    var x, y := Sized(a, 6), Sized(b, 8);
    TwoSlots(a, b, x, y);
    OneFlush(x, y, cap);
    TwoTypes(a, b);
    assert Stream([[x, y]], true) == [Published([x, y], true)] by {
      assert [[x, y]][..0] == [];
    }
    var m := Indexed(Assembled([a, b]), true);
    assert [Published([x, y], true)][..0] == [];
    assert SteadyMessages([a, b], cap, false) == IndexedOf([]) + [m] == [] + [m];
    LastBytes([], m);
  }

  lemma TwoSlots(a: FlushPiece, b: FlushPiece, x: Sized<FlushPiece>, y: Sized<FlushPiece>)
    requires |a.idx| == |a.val| == |b.idx| == |b.val| == 1
    requires x == Sized(a, 4 + a.vtype.Size()) && y == Sized(b, 4 + b.vtype.Size())
    ensures Sliced([a, b]) == [x, y] && Pieces([x, y]) == [a, b] && TotalWire([a, b]) == x.nbytes + y.nbytes
  {
    OneSlice(a);
    OneSlice(b);
    assert [a, b][..1] == [a] && [a][..0] == [];
    assert TotalWire([a]) == WireSize(a) && Sliced([a]) == Sliced([]) + [x] == [x];
    assert Sliced([a, b]) == [x] + [y] == [x, y];
    assert [x, y][..1] == [x] && [x][..0] == [];
    assert Pieces([x]) == Pieces([]) + [a] == [a] && Pieces([x, y]) == [a] + [b];
  }

  lemma OneSlice(p: FlushPiece)
    requires |p.idx| == |p.val| == 1
    ensures SizedSlices(p, 0, MAX_ENTRY_ELEMS) == [Sized(p, 4 + p.vtype.Size())]
  {
    assert SlicePiece(p, 0, 1) == p;
    assert SizedSlices(p, MAX_ENTRY_ELEMS, MAX_ENTRY_ELEMS) == [];
  }

  lemma OneFlush(x: Sized<FlushPiece>, y: Sized<FlushPiece>, cap: int)
    requires 0 < x.nbytes < cap
    ensures Flushes([x, y], cap) == [[x, y]]
  {
    CutAppend([], x, cap);
    CutAppend([x], y, cap);
    assert [] + [x] == [x] && [x] + [y] == [x, y];
    BytesAppend([], x);
    assert Bytes([x]) == x.nbytes;
  }

  lemma TwoTypes(a: FlushPiece, b: FlushPiece)
    requires WellFormed(a) && WellFormed(b) && |a.idx| == |b.idx| == 1 && a.vtype == BFloat16 && b.vtype == Float32
    ensures MessageBytes(Indexed(Assembled([a, b]), true)) == 16
  {
    AssembledSizes([a, b]);
    assert [a, b][..1] == [a] && [a][..0] == [];
    assert Elements([a]) == 1 && Elements([a, b]) == 2;
    assert TypesOf([a, b]) == [BFloat16, Float32] && [BFloat16, Float32][..1] == [BFloat16] && [BFloat16][..0] == [];
    assert PromoteAll([BFloat16]) == Some(BFloat16);
  }
}
