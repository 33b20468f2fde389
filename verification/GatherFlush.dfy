/** One gather round of the delta engine
    (verl/checkpoint_engine/delta_checkpoint_engine.py, _GatherQueue._flush): the parts
    that the ranks hold of every slot become the slot's whole delta on rank 0. */
module GatherFlush {
  import opened DeltaWire
  import opened SparseGather
  import opened ValueTypes

  datatype Slot = Slot(name: string, dtype: string, shape: seq<nat>)

  /** One rank's part of a queue entry: its changes for all slots of the entry, one
      slot after the other, and their numbers. */
  datatype Part = Part(counts: seq<nat>, idx: seq<nat>, val: seq<Float>)

  predicate PartFits(p: Part, slots: seq<Slot>) {
    |p.counts| == |slots| && |p.idx| == |p.val| == Offset(p.counts, |p.counts|)
  }

  predicate PartsFit(parts: seq<Part>, slots: seq<seq<Slot>>) {
    |parts| == |slots| && forall e :: 0 <= e < |slots| ==> PartFits(parts[e], slots[e])
  }

  // ---------- concatenating the entries of a batch ----------

  /** The number of slots before entry e. */
  function SlotsBefore(slots: seq<seq<Slot>>, e: nat): nat
    requires e <= |slots|
  {
    if e == 0 then 0 else SlotsBefore(slots, e - 1) + |slots[e - 1]|
  }

  function CountsUpTo(parts: seq<Part>, e: nat): seq<nat>
    requires e <= |parts|
  {
    if e == 0 then [] else CountsUpTo(parts, e - 1) + parts[e - 1].counts
  }

  function IdxUpTo(parts: seq<Part>, e: nat): seq<nat>
    requires e <= |parts|
  {
    if e == 0 then [] else IdxUpTo(parts, e - 1) + parts[e - 1].idx
  }

  function ValUpTo(parts: seq<Part>, e: nat): seq<Float>
    requires e <= |parts|
  {
    if e == 0 then [] else ValUpTo(parts, e - 1) + parts[e - 1].val
  }

  lemma {:induction false} OffsetConcat(a: seq<nat>, b: seq<nat>, j: nat)
    requires j <= |b|
    ensures Offset(a + b, |a| + j) == Offset(a, |a|) + Offset(b, j)
  {
    if j == 0 {
      OffsetPrefix(a, b, |a|);
    } else {
      OffsetConcat(a, b, j - 1);
    }
  }

  lemma {:induction false} OffsetPrefix(a: seq<nat>, b: seq<nat>, i: nat)
    requires i <= |a|
    ensures Offset(a + b, i) == Offset(a, i)
  {
    if i > 0 {
      OffsetPrefix(a, b, i - 1);
    }
  }

  lemma AppendSizes<T>(blob: seq<T>, lengths: seq<nat>, own: seq<T>, counts: seq<nat>)
    requires |blob| == Offset(lengths, |lengths|) && |own| == Offset(counts, |counts|)
    ensures |blob + own| == Offset(lengths + counts, |lengths + counts|)
  {
    OffsetConcat(lengths, counts, |counts|);
  }

  lemma {:induction false} BlobSizes(parts: seq<Part>, slots: seq<seq<Slot>>, e: nat)
    requires PartsFit(parts, slots) && e <= |parts|
    ensures |CountsUpTo(parts, e)| == SlotsBefore(slots, e)
    ensures |IdxUpTo(parts, e)| == |ValUpTo(parts, e)| == Offset(CountsUpTo(parts, e), |CountsUpTo(parts, e)|)
  {
    if e > 0 {
      BlobSizes(parts, slots, e - 1);
      assert PartFits(parts[e - 1], slots[e - 1]);
      AppendSizes(IdxUpTo(parts, e - 1), CountsUpTo(parts, e - 1), parts[e - 1].idx, parts[e - 1].counts);
      AppendSizes(ValUpTo(parts, e - 1), CountsUpTo(parts, e - 1), parts[e - 1].val, parts[e - 1].counts);
    }
  }

  lemma EntryOfLast<T>(blob: seq<T>, lengths: seq<nat>, own: seq<T>, counts: seq<nat>, j: nat)
    requires |blob| == Offset(lengths, |lengths|) && |own| == Offset(counts, |counts|) && j < |counts|
    ensures Offset(lengths + counts, |lengths + counts|) == |blob + own|
    ensures Entry(blob + own, lengths + counts, |lengths| + j) == Entry(own, counts, j)
  {
    OffsetConcat(lengths, counts, |counts|);
    OffsetConcat(lengths, counts, j);
    OffsetConcat(lengths, counts, j + 1);
    OffsetMonotone(counts, j, j + 1);
    OffsetMonotone(counts, j + 1, |counts|);
    var lo, hi := Offset(counts, j), Offset(counts, j + 1);
    assert (blob + own)[|blob| + lo..|blob| + hi] == own[lo..hi];
  }

  lemma EntryKept<T>(blob: seq<T>, lengths: seq<nat>, own: seq<T>, counts: seq<nat>, i: nat)
    requires |blob| == Offset(lengths, |lengths|) && |own| == Offset(counts, |counts|) && i < |lengths|
    ensures Offset(lengths + counts, |lengths + counts|) == |blob + own|
    ensures Entry(blob + own, lengths + counts, i) == Entry(blob, lengths, i)
  {
    OffsetConcat(lengths, counts, |counts|);
    OffsetPrefix(lengths, counts, i);
    OffsetPrefix(lengths, counts, i + 1);
    OffsetMonotone(lengths, i, i + 1);
    OffsetMonotone(lengths, i + 1, |lengths|);
    var lo, hi := Offset(lengths, i), Offset(lengths, i + 1);
    assert (blob + own)[lo..hi] == blob[lo..hi];
  }

  /** In the concatenation of a batch, slot j of entry e is where the running slot
      index says. */
  lemma {:induction false} EntryInBlob(parts: seq<Part>, slots: seq<seq<Slot>>, n: nat, e: nat, j: nat)
    requires PartsFit(parts, slots) && e < n <= |parts| && j < |slots[e]|
    ensures SlotsBefore(slots, e) + j < |CountsUpTo(parts, n)|
    ensures Offset(CountsUpTo(parts, n), |CountsUpTo(parts, n)|) <= |IdxUpTo(parts, n)|
    ensures PartFits(parts[e], slots[e])
    ensures Entry(IdxUpTo(parts, n), CountsUpTo(parts, n), SlotsBefore(slots, e) + j)
              == Entry(parts[e].idx, parts[e].counts, j)
    ensures Offset(CountsUpTo(parts, n), |CountsUpTo(parts, n)|) <= |ValUpTo(parts, n)|
    ensures Entry(ValUpTo(parts, n), CountsUpTo(parts, n), SlotsBefore(slots, e) + j)
              == Entry(parts[e].val, parts[e].counts, j)
  {
    var m := n - 1;
    BlobSizes(parts, slots, m);
    BlobSizes(parts, slots, n);
    assert PartFits(parts[m], slots[m]) && PartFits(parts[e], slots[e]);
    if e == m {
      EntryOfLast(IdxUpTo(parts, m), CountsUpTo(parts, m), parts[m].idx, parts[m].counts, j);
      EntryOfLast(ValUpTo(parts, m), CountsUpTo(parts, m), parts[m].val, parts[m].counts, j);
    } else {
      EntryInBlob(parts, slots, m, e, j);
      EntryKept(IdxUpTo(parts, m), CountsUpTo(parts, m), parts[m].idx, parts[m].counts, SlotsBefore(slots, e) + j);
      EntryKept(ValUpTo(parts, m), CountsUpTo(parts, m), parts[m].val, parts[m].counts, SlotsBefore(slots, e) + j);
    }
  }

  // ---------- a round ----------

  /** What every rank passes to the round: its parts of the entries of the batch. */
  predicate RanksFit(ranks: seq<seq<Part>>, slots: seq<seq<Slot>>) {
    forall r :: 0 <= r < |ranks| ==> PartsFit(ranks[r], slots)
  }

  function IdxBlobs(ranks: seq<seq<Part>>, slots: seq<seq<Slot>>): seq<seq<nat>>
    requires RanksFit(ranks, slots)
  {
    seq(|ranks|, r requires 0 <= r < |ranks| => assert PartsFit(ranks[r], slots); IdxUpTo(ranks[r], |slots|))
  }

  function ValBlobs(ranks: seq<seq<Part>>, slots: seq<seq<Slot>>): seq<seq<Float>>
    requires RanksFit(ranks, slots)
  {
    seq(|ranks|, r requires 0 <= r < |ranks| => assert PartsFit(ranks[r], slots); ValUpTo(ranks[r], |slots|))
  }

  function AllCounts(ranks: seq<seq<Part>>, slots: seq<seq<Slot>>): Counts
    requires RanksFit(ranks, slots)
  {
    seq(|ranks|, r requires 0 <= r < |ranks| => assert PartsFit(ranks[r], slots); CountsUpTo(ranks[r], |slots|))
  }

  /** The parts of the ranks of one entry. */
  predicate EntryFits(parts: seq<Part>, slots: seq<Slot>) {
    forall r :: 0 <= r < |parts| ==> PartFits(parts[r], slots)
  }

  /** The changes of slot j on ranks 0, 1, ..., world - 1, one after the other. */
  function DeltaIdx(parts: seq<Part>, slots: seq<Slot>, j: nat, world: nat): seq<nat>
    requires EntryFits(parts, slots) && j < |slots| && world <= |parts|
  {
    if world == 0 then [] else
      assert PartFits(parts[world - 1], slots);
      DeltaIdx(parts, slots, j, world - 1) + Entry(parts[world - 1].idx, parts[world - 1].counts, j)
  }

  function DeltaVal(parts: seq<Part>, slots: seq<Slot>, j: nat, world: nat): seq<Float>
    requires EntryFits(parts, slots) && j < |slots| && world <= |parts|
  {
    if world == 0 then [] else
      assert PartFits(parts[world - 1], slots);
      DeltaVal(parts, slots, j, world - 1) + Entry(parts[world - 1].val, parts[world - 1].counts, j)
  }

  function PieceOf(s: Slot, vtype: ValueType, idx: seq<nat>, val: seq<Float>): FlushPiece {
    FlushPiece(s.name, s.dtype, s.shape, vtype, idx, val)
  }

  /** The whole delta of every slot of an entry: the changes of all ranks, in rank order. */
  function WholeDelta(slots: seq<Slot>, vtype: ValueType, parts: seq<Part>): seq<FlushPiece>
    requires EntryFits(parts, slots)
  {
    seq(|slots|, j requires 0 <= j < |slots| =>
      PieceOf(slots[j], vtype, DeltaIdx(parts, slots, j, |parts|), DeltaVal(parts, slots, j, |parts|)))
  }

  /** What the ranks hold of entry e of a batch. */
  function Column(ranks: seq<seq<Part>>, slots: seq<seq<Slot>>, e: nat): (r: seq<Part>)
    requires RanksFit(ranks, slots) && e < |slots|
    ensures |r| == |ranks| && EntryFits(r, slots[e])
    ensures forall q :: 0 <= q < |ranks| ==> |ranks[q]| == |slots| && r[q] == ranks[q][e]
  {
    assert forall r :: 0 <= r < |ranks| ==> PartsFit(ranks[r], slots) && PartFits(ranks[r][e], slots[e]);
    seq(|ranks|, r requires 0 <= r < |ranks| => assert PartsFit(ranks[r], slots); ranks[r][e])
  }

  lemma BlobsMatch(ranks: seq<seq<Part>>, slots: seq<seq<Slot>>, k: nat)
    requires RanksFit(ranks, slots) && k == SlotsBefore(slots, |slots|)
    ensures Matches(IdxBlobs(ranks, slots), AllCounts(ranks, slots), k)
    ensures Matches(ValBlobs(ranks, slots), AllCounts(ranks, slots), k)
  {
    forall r | 0 <= r < |ranks|
      ensures |AllCounts(ranks, slots)[r]| == k
      ensures |IdxBlobs(ranks, slots)[r]| == |ValBlobs(ranks, slots)[r]| == Offset(AllCounts(ranks, slots)[r], k) {
      assert PartsFit(ranks[r], slots);
      BlobSizes(ranks[r], slots, |slots|);
    }
  }

  lemma {:induction false} SlotIndexFits(slots: seq<seq<Slot>>, n: nat, e: nat, j: nat)
    requires e < n <= |slots| && j < |slots[e]|
    ensures SlotsBefore(slots, e) + j < SlotsBefore(slots, n)
  {
    if e < n - 1 {
      SlotIndexFits(slots, n - 1, e, j);
    }
  }

  lemma RankIdx(ranks: seq<seq<Part>>, slots: seq<seq<Slot>>, k: nat, e: nat, j: nat, i: nat, r: nat)
    requires RanksFit(ranks, slots) && k == SlotsBefore(slots, |slots|) && e < |slots| && j < |slots[e]| && r < |ranks|
    requires i == SlotsBefore(slots, e) + j && i < k && Matches(IdxBlobs(ranks, slots), AllCounts(ranks, slots), k)
    ensures PartsFit(ranks[r], slots) && PartFits(ranks[r][e], slots[e])
    ensures Entry(IdxBlobs(ranks, slots)[r], AllCounts(ranks, slots)[r], i)
              == Entry(ranks[r][e].idx, ranks[r][e].counts, j)
  {
    assert PartsFit(ranks[r], slots);
    EntryInBlob(ranks[r], slots, |slots|, e, j);
  }

  lemma {:induction false} GatheredIdx(ranks: seq<seq<Part>>, slots: seq<seq<Slot>>, k: nat, e: nat, j: nat, i: nat,
                                       world: nat)
    requires RanksFit(ranks, slots) && k == SlotsBefore(slots, |slots|) && e < |slots| && j < |slots[e]|
    requires world <= |ranks|
    requires i == SlotsBefore(slots, e) + j && i < k && Matches(IdxBlobs(ranks, slots), AllCounts(ranks, slots), k)
    ensures SlotOf(IdxBlobs(ranks, slots), AllCounts(ranks, slots), k, i, world)
              == DeltaIdx(Column(ranks, slots, e), slots[e], j, world)
  {
    if world > 0 {
      GatheredIdx(ranks, slots, k, e, j, i, world - 1);
      RankIdx(ranks, slots, k, e, j, i, world - 1);
    }
  }

  lemma RankVal(ranks: seq<seq<Part>>, slots: seq<seq<Slot>>, k: nat, e: nat, j: nat, i: nat, r: nat)
    requires RanksFit(ranks, slots) && k == SlotsBefore(slots, |slots|) && e < |slots| && j < |slots[e]| && r < |ranks|
    requires i == SlotsBefore(slots, e) + j && i < k && Matches(ValBlobs(ranks, slots), AllCounts(ranks, slots), k)
    ensures PartsFit(ranks[r], slots) && PartFits(ranks[r][e], slots[e])
    ensures Entry(ValBlobs(ranks, slots)[r], AllCounts(ranks, slots)[r], i)
              == Entry(ranks[r][e].val, ranks[r][e].counts, j)
  {
    assert PartsFit(ranks[r], slots);
    EntryInBlob(ranks[r], slots, |slots|, e, j);
  }

  lemma {:induction false} GatheredVal(ranks: seq<seq<Part>>, slots: seq<seq<Slot>>, k: nat, e: nat, j: nat, i: nat,
                                       world: nat)
    requires RanksFit(ranks, slots) && k == SlotsBefore(slots, |slots|) && e < |slots| && j < |slots[e]|
    requires world <= |ranks|
    requires i == SlotsBefore(slots, e) + j && i < k && Matches(ValBlobs(ranks, slots), AllCounts(ranks, slots), k)
    ensures SlotOf(ValBlobs(ranks, slots), AllCounts(ranks, slots), k, i, world)
              == DeltaVal(Column(ranks, slots, e), slots[e], j, world)
  {
    if world > 0 {
      GatheredVal(ranks, slots, k, e, j, i, world - 1);
      RankVal(ranks, slots, k, e, j, i, world - 1);
    }
  }

  /** The consume calls for the slots of one entry, from the running slot index on. */
  method ConsumeEntry(slots: seq<seq<Slot>>, e: nat, gatheredIdx: seq<seq<nat>>, gatheredVal: seq<seq<Float>>,
                      slotI: nat, vtype: ValueType, ghost ranks: seq<seq<Part>>, ghost k: nat)
    returns (entry: seq<FlushPiece>)
    requires RanksFit(ranks, slots) && k == SlotsBefore(slots, |slots|) && e < |slots| && slotI == SlotsBefore(slots, e)
    requires Matches(IdxBlobs(ranks, slots), AllCounts(ranks, slots), k)
    requires Matches(ValBlobs(ranks, slots), AllCounts(ranks, slots), k)
    requires IsGathered(gatheredIdx, IdxBlobs(ranks, slots), AllCounts(ranks, slots), k)
    requires IsGathered(gatheredVal, ValBlobs(ranks, slots), AllCounts(ranks, slots), k)
    ensures entry == WholeDelta(slots[e], vtype, Column(ranks, slots, e))
  {
    entry := [];
    for j := 0 to |slots[e]|
      invariant |entry| == j && entry == WholeDelta(slots[e], vtype, Column(ranks, slots, e))[..j]
    {
      SlotIndexFits(slots, |slots|, e, j);
      GatheredIdx(ranks, slots, k, e, j, slotI + j, |ranks|);
      GatheredVal(ranks, slots, k, e, j, slotI + j, |ranks|);
      entry := entry + [PieceOf(slots[e][j], vtype, gatheredIdx[slotI + j], gatheredVal[slotI + j])];
    }
  }

  /** _flush for a process group: however large the parts of the ranks are and
      however the gather is split, rank 0 gets, for every slot of every entry, the
      changes of all ranks and nothing else, in the promoted type of the whole batch. */
  method FlushGroup(slots: seq<seq<Slot>>, vtypes: seq<ValueType>, ranks: seq<seq<Part>>, maxRoundBytes: int)
    returns (entries: seq<seq<FlushPiece>>)
    requires RanksFit(ranks, slots) && |vtypes| == |slots|
    ensures |entries| == |slots|
    ensures forall e :: 0 <= e < |slots| ==>
              entries[e] == WholeDelta(slots[e], PromoteAll(vtypes).value, Column(ranks, slots, e))
  {
    var k := SlotsBefore(slots, |slots|);
    BlobsMatch(ranks, slots, k);
    if slots == [] {
      return [];
    }
    var perElem := 4 + PromoteAll(vtypes).value.Size();
    var gatheredIdx := GatherSlots(IdxBlobs(ranks, slots), AllCounts(ranks, slots), k, maxRoundBytes, perElem, 0);
    var gatheredVal := GatherSlots(ValBlobs(ranks, slots), AllCounts(ranks, slots), k, maxRoundBytes, perElem, FILL);
    entries := [];
    var slotI := 0;
    for e := 0 to |slots|
      invariant |entries| == e && slotI == SlotsBefore(slots, e)
      invariant forall i :: 0 <= i < e ==>
                  entries[i] == WholeDelta(slots[i], PromoteAll(vtypes).value, Column(ranks, slots, i))
    {
      var entry := ConsumeEntry(slots, e, gatheredIdx, gatheredVal, slotI, PromoteAll(vtypes).value, ranks, k);
      entries := entries + [entry];
      slotI := slotI + |slots[e]|;
    }
  }

  lemma OneRank(part: Part, slots: seq<Slot>, j: nat)
    requires PartFits(part, slots) && EntryFits([part], slots) && j < |slots|
    ensures DeltaIdx([part], slots, j, 1) == Entry(part.idx, part.counts, j)
    ensures DeltaVal([part], slots, j, 1) == Entry(part.val, part.counts, j)
  {
    assert DeltaIdx([part], slots, j, 0) == [] && DeltaVal([part], slots, j, 0) == [];
  }

  /** _flush without a process group: rank 0's own part is the whole delta. */
  method FlushLocal(slots: seq<Slot>, vtype: ValueType, part: Part) returns (entry: seq<FlushPiece>)
    requires PartFits(part, slots)
    ensures EntryFits([part], slots) && entry == WholeDelta(slots, vtype, [part])
  {
    entry := [];
    var off: nat := 0;
    for j := 0 to |slots|
      invariant |entry| == j && off == Offset(part.counts, j) && EntryFits([part], slots)
      invariant entry == WholeDelta(slots, vtype, [part])[..j]
    {
      var c := part.counts[j];
      OffsetMonotone(part.counts, j + 1, |part.counts|);
      OneRank(part, slots, j);
      entry := entry + [PieceOf(slots[j], vtype, part.idx[off..off + c], part.val[off..off + c])];
      off := off + c;
    }
  }
}
