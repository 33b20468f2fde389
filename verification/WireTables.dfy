/** What the offset tables of a steady synchronisation say about the parameters
    (verl/checkpoint_engine/delta_checkpoint_engine.py, _assemble_flush;
    verl/workers/engine/utils.py, hf_delta_export). */
module WireTables {
  import opened DeltaBuckets
  import opened DeltaEngine
  import opened DeltaGather
  import opened DeltaMessages
  import opened DeltaParts
  import opened DeltaRounds
  import opened DeltaWire
  import opened FlushBuckets
  import opened GatherFlush
  import opened GatherQueues
  import opened ShardExports
  import opened WeightDeltas

  /** The slot a piece belongs to, by everything that describes it. */
  function SlotOfPiece(p: FlushPiece): Slot {
    Slot(p.name, p.dtype, p.shape)
  }

  /** Every piece belongs to one of the slots. */
  predicate Belong(pieces: seq<FlushPiece>, slots: seq<Slot>) {
    forall i :: 0 <= i < |pieces| ==> SlotOfPiece(pieces[i]) in slots
  }

  lemma {:induction false} SlicesBelong(p: FlushPiece, from: nat, maxElems: nat, slots: seq<Slot>)
    requires maxElems > 0 && SlotOfPiece(p) in slots
    ensures Belong(Slices(p, from, maxElems), slots)
    decreases |p.idx| - from
  {
    if from < |p.idx| {
      SlicesBelong(p, from + maxElems, maxElems, slots);
    }
  }

  lemma {:induction false} SlicedBelong(pieces: seq<FlushPiece>, slots: seq<Slot>)
    requires Belong(pieces, slots)
    ensures Belong(Pieces(Sliced(pieces)), slots)
  {
    if pieces != [] {
      var n := |pieces| - 1;
      SlicedBelong(pieces[..n], slots);
      SlicedLast(pieces);
      assert SlotOfPiece(pieces[n]) in slots;
      SlicesBelong(pieces[n], 0, MAX_ENTRY_ELEMS, slots);
    }
  }

  lemma {:induction false} FlushBelongs(published: seq<Published<FlushPiece>>, slots: seq<Slot>, k: nat)
    requires Belong(AllPieces(published), slots) && k < |published|
    ensures Belong(Pieces(published[k].flush), slots)
  {
    var n := |published| - 1;
    BelongConcat(AllPieces(published[..n]), Pieces(published[n].flush), slots);
    if k < n {
      FlushBelongs(published[..n], slots, k);
    }
  }

  lemma BelongConcat(a: seq<FlushPiece>, b: seq<FlushPiece>, slots: seq<Slot>)
    ensures Belong(a + b, slots) <==> Belong(a, slots) && Belong(b, slots)
  {
    assert forall i :: 0 <= i < |a| ==> (a + b)[i] == a[i];
    assert forall i :: 0 <= i < |b| ==> (a + b)[|a| + i] == b[i];
  }

  lemma {:induction false} IndexedAt(published: seq<Published<FlushPiece>>, k: nat)
    requires k < |published|
    ensures |IndexedOf(published)| == |published|
    ensures IndexedOf(published)[k] == Indexed(Assembled(Pieces(published[k].flush)), published[k].isLast)
  {
    var n := |published| - 1;
    IndexedFlags(published[..n]);
    if k < n {
      IndexedAt(published[..n], k);
    }
  }

  // ---------- from the gather to the tables ----------

  /** Entry k of a table describes one of the slots: its name, type and shape, with
      positions of four bytes, one for each value. */
  predicate EntryDescribes(f: DeltaFlush, k: nat, slots: seq<Slot>)
    requires k < |f.params|
  {
    var e := f.params[k];
    Slot(e.name, e.dtype, e.shape) in slots && e.posWidth == 4
    && e.posEnd - e.posStart == 4 * (e.valEnd - e.valStart)
  }

  predicate TableDescribes(m: Message, slots: seq<Slot>) {
    m.Indexed? ==> forall k :: 0 <= k < |m.flush.params| ==> EntryDescribes(m.flush, k, slots)
  }

  lemma AssembledDescribes(pieces: seq<FlushPiece>, isLast: bool, slots: seq<Slot>)
    requires AllWellFormed(pieces) && Belong(pieces, slots)
    ensures TableDescribes(Indexed(Assembled(pieces), isLast), slots)
  {
    AssembledTiles(pieces);
    forall k | 0 <= k < |pieces| ensures EntryDescribes(Assembled(pieces), k, slots) {
      AssembledEntry(pieces, k);
      assert SlotOfPiece(pieces[k]) in slots;
    }
  }

  lemma SteadyTables(pieces: seq<FlushPiece>, cap: int, verify: bool, slots: seq<Slot>, i: nat)
    requires AllWellFormed(pieces) && Belong(pieces, slots) && i < |SteadyMessages(pieces, cap, verify)|
    ensures TableDescribes(SteadyMessages(pieces, cap, verify)[i], slots)
  {
    var published := Stream(Flushes(Sliced(pieces), cap), !verify);
    if SteadyMessages(pieces, cap, verify) == IndexedOf(published) {
      SlicedBelong(pieces, slots);
      StreamPieces(Sliced(pieces), cap, !verify);
      IndexedFlags(published);
      FlushBelongs(published, slots, i);
      SteadyPublishable(pieces, cap, !verify);
      assert FlushWellFormed(published[i].flush);
      IndexedAt(published, i);
      AssembledDescribes(Pieces(published[i].flush), published[i].isLast, slots);
    }
  }

  /** The slots of all puts of rank 0. */
  predicate AmongSlots(views: seq<seq<OwnPut>>, slots: seq<Slot>)
    requires |views| > 0
  {
    forall i, s :: 0 <= i < |views[0]| && s in views[0][i].entry.slots ==> s in slots
  }

  lemma PutBelongs(views: seq<seq<OwnPut>>, slots: seq<Slot>, p: FlushPiece)
    requires Lockstep(views) && AmongSlots(views, slots) && p in PutSlots(Gathered(views))
    ensures SlotOfPiece(p) in slots
  {
    InPutSlots(Gathered(views), p);
    var i :| 0 <= i < |Gathered(views)| && p in Gathered(views)[i].entry;
    var j :| 0 <= j < |WholeAt(views, i)| && p == WholeAt(views, i)[j];
    assert views[0][i].entry.slots[j] in slots;
  }

  lemma RoundSlotsBelong(views: seq<seq<OwnPut>>, batchGather: int, slots: seq<Slot>)
    requires Lockstep(views) && AmongSlots(views, slots)
    ensures Belong(RoundSlots(views, batchGather), slots)
  {
    var delivered, whole := RoundSlots(views, batchGather), SlotsOf(AllRounds(Gathered(views), BatchOf(batchGather)));
    DeliveredSame(views, BatchOf(batchGather));
    forall i | 0 <= i < |delivered| ensures SlotOfPiece(delivered[i]) in slots {
      assert delivered[i] == whole[i].(vtype := delivered[i].vtype);
      RoundsCarrySlots(Gathered(views), BatchOf(batchGather), whole[i]);
      PutBelongs(views, slots, whole[i]);
    }
  }

  // ---------- from the parameters to the tables ----------

  function ParamSlots(params: seq<Param>): seq<Slot> {
    seq(|params|, i requires 0 <= i < |params| => params[i].slot)
  }

  /** What a rank puts for a parameter: its slot, its type and its group. */
  lemma ExportDescribes(params: seq<Param>, shards: seq<seq<Shard>>, old_: Weights, new_: Weights, r: nat, i: nat)
    requires Sharding(params, shards) && Describe(params, old_) && Describe(params, new_)
    requires r < |shards| && i < |params|
    ensures var p := ExportOf(params, shards, old_, new_)[r][i];
            p.group == params[i].group && p.entry.slots == [params[i].slot] && p.entry.vtype == params[i].vtype
  {
  }

  /** Every entry of every table of a steady synchronisation has the name, type and shape
      of one of the trainer's parameters, so that the receiver decodes it in that type. */
  lemma TablesDescribeParams(params: seq<Param>, shards: seq<seq<Shard>>, old_: Weights, new_: Weights,
                             batchGather: int, cap: int, verify: bool, i: nat)
    requires Sharding(params, shards) && Describe(params, old_) && Describe(params, new_)
    ensures var views := ExportOf(params, shards, old_, new_);
            && Lockstep(views)
            && var messages := SteadyMessages(RoundSlots(views, batchGather), cap, verify);
            i < |messages| ==> TableDescribes(messages[i], ParamSlots(params))
  {
    var views := ExportOf(params, shards, old_, new_);
    ExportsHoldChanges(params, shards, old_, new_);
    PartsAreDelta(old_, new_, views);
    DeltaFits(old_, new_, PutSlots(Gathered(views)));
    RoundsWellFormed(views, batchGather);
    forall k, s | 0 <= k < |views[0]| && s in views[0][k].entry.slots ensures s in ParamSlots(params) {
      ExportDescribes(params, shards, old_, new_, 0, k);
      assert ParamSlots(params)[k] == params[k].slot;
    }
    RoundSlotsBelong(views, batchGather, ParamSlots(params));
    if i < |SteadyMessages(RoundSlots(views, batchGather), cap, verify)| {
      SteadyTables(RoundSlots(views, batchGather), cap, verify, ParamSlots(params), i);
    }
  }
}
