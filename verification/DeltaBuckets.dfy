/** Slicing and bucketing of the gathered deltas of one steady synchronisation
    (verl/checkpoint_engine/delta_checkpoint_engine.py, _bucket_sliced,
    _bucket_slot_delta). */
module DeltaBuckets {
  import opened Arithmetic
  import opened DeltaWire
  import opened FlushBuckets
  import opened GatherQueues
  import opened Sequences
  import opened WeightChunks

  const MAX_ENTRY_ELEMS: nat := 64 * 1024 * 1024

  function WireSize(p: FlushPiece): nat {
    |p.idx| * (4 + p.vtype.Size())
  }

  function SizedSlices(p: FlushPiece, from: nat, maxElems: nat): seq<Sized<FlushPiece>>
    requires maxElems > 0
    decreases |p.idx| - from
  {
    if from >= |p.idx| then [] else
      [SizedSlice(p, from, maxElems)] + SizedSlices(p, from + maxElems, maxElems)
  }

  function SizedSlice(p: FlushPiece, from: nat, maxElems: nat): Sized<FlushPiece>
    requires from <= |p.idx|
  {
    var end := Min(from + maxElems, |p.idx|);
    Sized(SlicePiece(p, from, end), (end - from) * (4 + p.vtype.Size()))
  }

  lemma SliceStep(added: seq<Sized<FlushPiece>>, p: FlushPiece, from: nat, maxElems: nat)
    requires maxElems > 0 && from < |p.idx|
    ensures added + SizedSlices(p, from, maxElems)
            == added + [SizedSlice(p, from, maxElems)] + SizedSlices(p, from + maxElems, maxElems)
  {
    Associate(added, [SizedSlice(p, from, maxElems)], SizedSlices(p, from + maxElems, maxElems));
  }

  lemma {:induction false} SliceFrom(p: FlushPiece, from: nat, maxElems: nat, k: nat, start: nat)
    requires maxElems > 0 && |p.idx| == |p.val| && start == from + k * maxElems
    ensures var slices, end := SizedSlices(p, from, maxElems), Min(start + maxElems, |p.idx|);
            && (k < |slices| <==> start < |p.idx|)
            && (k < |slices| ==> slices[k].piece == p.(idx := p.idx[start..end], val := p.val[start..end]))
    decreases k
  {
    FlatLength(k - 1, maxElems);
    if k == 0 {
      assert start == from;
    } else if from < |p.idx| {
      SliceFrom(p, from + maxElems, maxElems, k - 1, start);
    } else {
      Monotone(0, k, maxElems);
    }
  }

  /** Slice k of a delta has the elements from k * 64M on, up to 64M of them. */
  lemma SliceAt(p: FlushPiece, k: nat)
    requires |p.idx| == |p.val|
    ensures var slices, start := Sliced([p]), k * 67108864;
            var end := Min(start + 67108864, |p.idx|);
            && (k < |slices| <==> start < |p.idx|)
            && (k < |slices| ==> slices[k].piece == p.(idx := p.idx[start..end], val := p.val[start..end]))
  {
    SliceFrom(p, 0, 67108864, k, k * 67108864);
    assert [p][..0] == [];
    assert Sliced([p]) == [] + SizedSlices(p, 0, MAX_ENTRY_ELEMS);
  }

  /** _bucket_sliced */
  method BucketSliced(bkt: FlushBucket<FlushPiece>, slot: FlushPiece, maxElems: nat)
    requires bkt.Valid() && maxElems > 0
    modifies bkt
    ensures bkt.Valid() && bkt.added == old(bkt.added) + SizedSlices(slot, 0, maxElems)
  {
    var s: nat := 0;
    while s < |slot.idx|
      invariant bkt.Valid()
      invariant bkt.added + SizedSlices(slot, s, maxElems) == old(bkt.added) + SizedSlices(slot, 0, maxElems)
      decreases |slot.idx| - s
    {
      SliceStep(bkt.added, slot, s, maxElems);
      var next := SizedSlice(slot, s, maxElems);
      bkt.Add(next.piece, next.nbytes);
      s := s + maxElems;
    }
  }

  /** All slots sliced, in order. */
  function Sliced(slots: seq<FlushPiece>): seq<Sized<FlushPiece>> {
    if slots == [] then []
    else Sliced(slots[..|slots| - 1]) + SizedSlices(slots[|slots| - 1], 0, MAX_ENTRY_ELEMS)
  }

  function TotalWire(slots: seq<FlushPiece>): nat {
    if slots == [] then 0 else TotalWire(slots[..|slots| - 1]) + WireSize(slots[|slots| - 1])
  }

  lemma {:induction false} SlicedConcat(a: seq<FlushPiece>, b: seq<FlushPiece>)
    ensures Sliced(a + b) == Sliced(a) + Sliced(b) && TotalWire(a + b) == TotalWire(a) + TotalWire(b)
  {
    if b == [] {
      assert a + b == a;
    } else {
      var n := |b| - 1;
      assert (a + b)[..|a| + n] == a + b[..n] && (a + b)[|a| + n] == b[n];
      SlicedConcat(a, b[..n]);
      Associate(Sliced(a), Sliced(b[..n]), SizedSlices(b[n], 0, MAX_ENTRY_ELEMS));
    }
  }

  lemma SlotStep(slots: seq<FlushPiece>, i: nat)
    requires i < |slots|
    ensures Sliced(slots[..i + 1]) == Sliced(slots[..i]) + SizedSlices(slots[i], 0, MAX_ENTRY_ELEMS)
    ensures TotalWire(slots[..i + 1]) == TotalWire(slots[..i]) + WireSize(slots[i])
    ensures slots[i].idx == [] ==> SizedSlices(slots[i], 0, MAX_ENTRY_ELEMS) == [] && WireSize(slots[i]) == 0
  {
    assert slots[..i + 1][..i] == slots[..i];
  }

  /** _bucket_slot_delta for the slots of one gathered entry; the result is what
      they add to the wire bytes. */
  method BucketEntry(bkt: FlushBucket<FlushPiece>, slots: seq<FlushPiece>) returns (wire: nat)
    requires bkt.Valid()
    modifies bkt
    ensures bkt.Valid() && bkt.added == old(bkt.added) + Sliced(slots)
    ensures wire == TotalWire(slots)
  {
    wire := 0;
    for i := 0 to |slots|
      invariant bkt.Valid() && bkt.added == old(bkt.added) + Sliced(slots[..i])
      invariant wire == TotalWire(slots[..i])
    {
      var slot := slots[i];
      SlotStep(slots, i);
      Associate(old(bkt.added), Sliced(slots[..i]), SizedSlices(slot, 0, MAX_ENTRY_ELEMS));
      if |slot.idx| != 0 {
        wire := wire + WireSize(slot);
        BucketSliced(bkt, slot, MAX_ENTRY_ELEMS);
      }
    }
    assert slots[..|slots|] == slots;
  }

  type Entry = seq<FlushPiece>  // what rank 0 gets for the slots of one entry

  function SlotsOf<G>(rounds: seq<Round<G, Entry>>): seq<FlushPiece> {
    if rounds == [] then [] else SlotsOf(rounds[..|rounds| - 1]) + Flatten(rounds[|rounds| - 1].batch)
  }

  lemma RoundStep<G>(rounds: seq<Round<G, Entry>>, i: nat)
    requires i < |rounds|
    ensures Sliced(SlotsOf(rounds[..i + 1])) == Sliced(SlotsOf(rounds[..i])) + Sliced(Flatten(rounds[i].batch))
    ensures TotalWire(SlotsOf(rounds[..i + 1])) == TotalWire(SlotsOf(rounds[..i])) + TotalWire(Flatten(rounds[i].batch))
  {
    assert rounds[..i + 1][..i] == rounds[..i];
    SlicedConcat(SlotsOf(rounds[..i]), Flatten(rounds[i].batch));
  }

  method BucketRounds<G>(bkt: FlushBucket<FlushPiece>, rounds: seq<Round<G, Entry>>) returns (wire: nat)
    requires bkt.Valid()
    modifies bkt
    ensures bkt.Valid() && bkt.added == old(bkt.added) + Sliced(SlotsOf(rounds))
    ensures wire == TotalWire(SlotsOf(rounds))
  {
    wire := 0;
    for i := 0 to |rounds|
      invariant bkt.Valid() && bkt.added == old(bkt.added) + Sliced(SlotsOf(rounds[..i]))
      invariant wire == TotalWire(SlotsOf(rounds[..i]))
    {
      RoundStep(rounds, i);
      Associate(old(bkt.added), Sliced(SlotsOf(rounds[..i])), Sliced(Flatten(rounds[i].batch)));
      var w := BucketBatch(bkt, rounds[i].batch);
      wire := wire + w;
    }
    assert rounds[..|rounds|] == rounds;
  }

  lemma BatchStep(batch: seq<Entry>, i: nat)
    requires i < |batch|
    ensures Sliced(Flatten(batch[..i + 1])) == Sliced(Flatten(batch[..i])) + Sliced(batch[i])
    ensures TotalWire(Flatten(batch[..i + 1])) == TotalWire(Flatten(batch[..i])) + TotalWire(batch[i])
  {
    assert batch[..i + 1] == batch[..i] + [batch[i]];
    FlattenAppend(batch[..i], batch[i]);
    SlicedConcat(Flatten(batch[..i]), batch[i]);
  }

  method BucketBatch(bkt: FlushBucket<FlushPiece>, batch: seq<Entry>) returns (wire: nat)
    requires bkt.Valid()
    modifies bkt
    ensures bkt.Valid() && bkt.added == old(bkt.added) + Sliced(Flatten(batch))
    ensures wire == TotalWire(Flatten(batch))
  {
    wire := 0;
    for i := 0 to |batch|
      invariant bkt.Valid() && bkt.added == old(bkt.added) + Sliced(Flatten(batch[..i]))
      invariant wire == TotalWire(Flatten(batch[..i]))
    {
      BatchStep(batch, i);
      Associate(old(bkt.added), Sliced(Flatten(batch[..i])), Sliced(batch[i]));
      var w := BucketEntry(bkt, batch[i]);
      wire := wire + w;
    }
    assert batch[..|batch|] == batch;
  }

  // ---------- what the receiver makes of the slices ----------

  lemma PiecesFirst(x: Sized<FlushPiece>, rest: seq<Sized<FlushPiece>>)
    ensures Pieces([x] + rest) == [x.piece] + Pieces(rest) && Bytes([x] + rest) == x.nbytes + Bytes(rest)
  {
    PiecesConcat([x], rest);
    assert [x][..0] == [];
  }

  /** The slices are bucketed with their wire sizes, which add up to the whole. */
  lemma {:induction false} SizedSlicesAre(p: FlushPiece, from: nat, maxElems: nat)
    requires maxElems > 0
    ensures Pieces(SizedSlices(p, from, maxElems)) == Slices(p, from, maxElems)
    ensures Bytes(SizedSlices(p, from, maxElems))
              == if from < |p.idx| then (|p.idx| - from) * (4 + p.vtype.Size()) else 0
    decreases |p.idx| - from
  {
    if from < |p.idx| {
      SizedSlicesAre(p, from + maxElems, maxElems);
      PiecesFirst(SizedSlice(p, from, maxElems), SizedSlices(p, from + maxElems, maxElems));
      var end := Min(from + maxElems, |p.idx|);
      Distribute(end - from, |p.idx| - end, 4 + p.vtype.Size());
    }
  }

  lemma SlicedLast(slots: seq<FlushPiece>)
    requires slots != []
    ensures var n := |slots| - 1;
            Pieces(Sliced(slots)) == Pieces(Sliced(slots[..n])) + Slices(slots[n], 0, MAX_ENTRY_ELEMS)
  {
    var n := |slots| - 1;
    PiecesConcat(Sliced(slots[..n]), SizedSlices(slots[n], 0, MAX_ENTRY_ELEMS));
    SizedSlicesAre(slots[n], 0, MAX_ENTRY_ELEMS);
  }

  /** Applying the slices of all slots is applying each slot's whole delta once. */
  lemma {:induction false} ApplySliced(ws: Weights, slots: seq<FlushPiece>)
    requires AllFit(ws, slots)
    ensures ApplyPieces(ws, Pieces(Sliced(slots))) == ApplyPieces(ws, slots)
  {
    if slots != [] {
      var n := |slots| - 1;
      ApplySliced(ws, slots[..n]);
      SlicedLast(slots);
      assert Fits(ws, slots[n]);
      ApplyKeepsShape(ws, slots[..n]);
      ApplyLastSliced(ws, Pieces(Sliced(slots[..n])), ApplyPieces(ws, slots[..n]), slots[n]);
    }
  }

  lemma ApplyLastSliced(ws: Weights, pieces: seq<FlushPiece>, earlier: Weights, slot: FlushPiece)
    requires ApplyPieces(ws, pieces) == earlier && Fits(earlier, slot)
    ensures ApplyPieces(ws, pieces + Slices(slot, 0, MAX_ENTRY_ELEMS)) == ApplyPiece(earlier, slot)
  {
    ApplyPiecesConcat(ws, pieces, Slices(slot, 0, MAX_ENTRY_ELEMS));
    ApplySlices(earlier, slot, 0, MAX_ENTRY_ELEMS);
    assert SlicePiece(slot, 0, |slot.idx|) == slot;
  }

  lemma {:induction false} SlicesWellFormed(p: FlushPiece, from: nat, maxElems: nat)
    requires WellFormed(p) && maxElems > 0
    ensures AllWellFormed(Slices(p, from, maxElems))
    ensures Encodable(Slices(p, from, maxElems)) <==> from >= |p.idx| || Numel(p.shape) < INT32_BOUND
    decreases |p.idx| - from
  {
    if from < |p.idx| {
      SliceWellFormed(p, from, Min(from + maxElems, |p.idx|));
      SlicesWellFormed(p, from + maxElems, maxElems);
      var all := Slices(p, from, maxElems);
      assert all[0].shape == p.shape;
      assert forall i :: 0 < i < |all| ==> all[i] == Slices(p, from + maxElems, maxElems)[i - 1];
    }
  }

  lemma AllConcat(a: seq<FlushPiece>, b: seq<FlushPiece>)
    ensures AllWellFormed(a + b) <==> AllWellFormed(a) && AllWellFormed(b)
    ensures Encodable(a + b) <==> Encodable(a) && Encodable(b)
  {
    var c := a + b;
    assert forall i :: 0 <= i < |a| ==> c[i] == a[i];
    assert forall i :: 0 <= i < |b| ==> c[|a| + i] == b[i];
  }

  /** The int32 assertion holds for every slot that has changed elements. */
  predicate SlotsEncodable(slots: seq<FlushPiece>) {
    forall i :: 0 <= i < |slots| && slots[i].idx != [] ==> Numel(slots[i].shape) < INT32_BOUND
  }

  lemma LastSlotEncodable(slots: seq<FlushPiece>)
    requires slots != []
    ensures var n := |slots| - 1;
            SlotsEncodable(slots)
            <==> SlotsEncodable(slots[..n]) && (slots[n].idx == [] || Numel(slots[n].shape) < INT32_BOUND)
  {
    var n := |slots| - 1;
    assert forall i :: 0 <= i < n ==> slots[..n][i] == slots[i];
  }

  lemma {:induction false} SlicedWellFormed(slots: seq<FlushPiece>)
    requires AllWellFormed(slots)
    ensures AllWellFormed(Pieces(Sliced(slots)))
    ensures Encodable(Pieces(Sliced(slots))) <==> SlotsEncodable(slots)
  {
    if slots != [] {
      var n := |slots| - 1;
      SlicedWellFormed(slots[..n]);
      SlicedLast(slots);
      assert WellFormed(slots[n]);
      SlicesWellFormed(slots[n], 0, MAX_ENTRY_ELEMS);
      AllConcat(Pieces(Sliced(slots[..n])), Slices(slots[n], 0, MAX_ENTRY_ELEMS));
      LastSlotEncodable(slots);
    }
  }

  // ---------- wire bytes ----------

  lemma {:induction false} SlicedBytes(slots: seq<FlushPiece>)
    ensures Bytes(Sliced(slots)) == TotalWire(slots)
  {
    if slots != [] {
      var n := |slots| - 1;
      SlicedBytes(slots[..n]);
      PiecesConcat(Sliced(slots[..n]), SizedSlices(slots[n], 0, MAX_ENTRY_ELEMS));
      SizedSlicesAre(slots[n], 0, MAX_ENTRY_ELEMS);
    }
  }
}
