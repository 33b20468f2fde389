/** When the parts of the ranks make up the difference of two states of the trainer: each
    rank ships what changed in its own shard (verl/workers/engine/utils.py,
    hf_delta_export; verl/checkpoint_engine/delta_sync/sparse_gather.py,
    shard_delta_indices). */
module DeltaParts {
  import opened DeltaGather
  import opened DeltaRounds
  import opened DeltaWire
  import opened GatherFlush
  import opened SparseGather
  import opened ValueTypes
  import opened WeightChunks
  import opened WeightDeltas

  function OwnIdx(p: Part, slots: seq<Slot>, j: nat): seq<nat>
    requires PartFits(p, slots) && j < |slots|
  {
    Entry(p.idx, p.counts, j)
  }

  function OwnVal(p: Part, slots: seq<Slot>, j: nat): seq<Float>
    requires PartFits(p, slots) && j < |slots|
  {
    Entry(p.val, p.counts, j)
  }

  predicate Distinct(idx: seq<nat>) {
    forall k, l :: 0 <= k < l < |idx| ==> idx[k] != idx[l]
  }

  predicate Apart(a: seq<nat>, b: seq<nat>) {
    forall k :: 0 <= k < |a| ==> a[k] !in b
  }

  /** Positions of a slot with their values in this state. */
  predicate HasValues(ws: Weights, s: Slot, idx: seq<nat>, val: seq<Float>) {
    && s.name in ws && |ws[s.name]| == Numel(s.shape) && |idx| == |val|
    && forall k :: 0 <= k < |idx| ==> idx[k] < Numel(s.shape) && ws[s.name][idx[k]] == val[k]
  }

  predicate OwnHolds(ws: Weights, p: Part, slots: seq<Slot>, j: nat) {
    && j < |slots| && PartFits(p, slots)
    && HasValues(ws, slots[j], OwnIdx(p, slots, j), OwnVal(p, slots, j)) && Distinct(OwnIdx(p, slots, j))
  }

  predicate OwnApart(p: Part, q: Part, slots: seq<Slot>, j: nat) {
    j < |slots| && PartFits(p, slots) && PartFits(q, slots) && Apart(OwnIdx(p, slots, j), OwnIdx(q, slots, j))
  }

  /** For slot j, every rank ships values of this state, and no element is shipped twice. */
  predicate PartsHold(ws: Weights, parts: seq<Part>, slots: seq<Slot>, j: nat) {
    && (forall m :: 0 <= m < |parts| ==> OwnHolds(ws, parts[m], slots, j))
    && (forall m, l :: 0 <= m < |parts| && 0 <= l < |parts| && m != l ==> OwnApart(parts[m], parts[l], slots, j))
  }

  predicate EntryHolds(ws: Weights, parts: seq<Part>, slots: seq<Slot>) {
    forall j :: 0 <= j < |slots| ==> PartsHold(ws, parts, slots, j)
  }

  /** Some rank ships element x of the slot. */
  predicate ShippedBy(parts: seq<Part>, slots: seq<Slot>, j: nat, x: nat) {
    exists m :: 0 <= m < |parts| && j < |slots| && PartFits(parts[m], slots) && x in OwnIdx(parts[m], slots, j)
  }

  predicate ShippedFor(parts: seq<Part>, slots: seq<Slot>, name: string, x: nat) {
    exists j :: 0 <= j < |slots| && slots[j].name == name && ShippedBy(parts, slots, j, x)
  }

  /** What the ranks put for the next state of the trainer: for every parameter values of
      that state, each element on one rank only, and every changed element on some. */
  predicate HoldChanges(old_: Weights, new_: Weights, views: seq<seq<OwnPut>>) {
    && Lockstep(views) && SameSizes(old_, new_)
    && (forall i :: 0 <= i < |views[0]| ==> EntryHolds(new_, PartsAt(views, i), views[0][i].entry.slots))
    && (forall n, x :: n in old_ && n in new_ && 0 <= x < |old_[n]| && x < |new_[n]| && old_[n][x] != new_[n][x] ==>
        Shipped(views, n, x))
  }

  predicate Shipped(views: seq<seq<OwnPut>>, n: string, x: nat)
    requires Lockstep(views)
  {
    exists i :: 0 <= i < |views[0]| && ShippedFor(PartsAt(views, i), views[0][i].entry.slots, n, x)
  }

  // ---------- one slot ----------

  lemma {:induction false} DeltaFrom(parts: seq<Part>, slots: seq<Slot>, j: nat, world: nat, x: nat)
    requires EntryFits(parts, slots) && j < |slots| && world <= |parts| && x in DeltaIdx(parts, slots, j, world)
    ensures exists m :: 0 <= m < world && PartFits(parts[m], slots) && x in OwnIdx(parts[m], slots, j)
  {
    var m := world - 1;
    assert PartFits(parts[m], slots);
    if x !in OwnIdx(parts[m], slots, j) {
      DeltaFrom(parts, slots, j, m, x);
    }
  }

  lemma {:induction false} DeltaHas(parts: seq<Part>, slots: seq<Slot>, j: nat, world: nat, m: nat, x: nat)
    requires EntryFits(parts, slots) && j < |slots| && m < world <= |parts|
    requires PartFits(parts[m], slots) && x in OwnIdx(parts[m], slots, j)
    ensures x in DeltaIdx(parts, slots, j, world)
  {
    if m < world - 1 {
      DeltaHas(parts, slots, j, world - 1, m, x);
    }
  }

  lemma HasValuesConcat(ws: Weights, s: Slot, a: seq<nat>, u: seq<Float>, b: seq<nat>, v: seq<Float>)
    requires HasValues(ws, s, a, u) && HasValues(ws, s, b, v)
    ensures HasValues(ws, s, a + b, u + v)
  {
  }

  lemma DistinctConcat(a: seq<nat>, b: seq<nat>)
    requires Distinct(a) && Distinct(b) && Apart(a, b)
    ensures Distinct(a + b)
  {
  }

  /** The whole delta of a slot holds the values of the state, each element once. */
  lemma {:induction false} WholeHolds(ws: Weights, parts: seq<Part>, slots: seq<Slot>, j: nat, world: nat)
    requires EntryFits(parts, slots) && PartsHold(ws, parts, slots, j) && j < |slots| && world <= |parts|
    requires slots[j].name in ws && |ws[slots[j].name]| == Numel(slots[j].shape)
    ensures HasValues(ws, slots[j], DeltaIdx(parts, slots, j, world), DeltaVal(parts, slots, j, world))
    ensures Distinct(DeltaIdx(parts, slots, j, world))
  {
    if world > 0 {
      var m := world - 1;
      var idx := DeltaIdx(parts, slots, j, m);
      WholeHolds(ws, parts, slots, j, m);
      assert OwnHolds(ws, parts[m], slots, j);
      HasValuesConcat(ws, slots[j], idx, DeltaVal(parts, slots, j, m), OwnIdx(parts[m], slots, j),
                      OwnVal(parts[m], slots, j));
      forall k | 0 <= k < |idx| ensures idx[k] !in OwnIdx(parts[m], slots, j) {
        DeltaFrom(parts, slots, j, m, idx[k]);
        var l :| 0 <= l < m && PartFits(parts[l], slots) && idx[k] in OwnIdx(parts[l], slots, j);
        assert OwnApart(parts[l], parts[m], slots, j);
      }
      DistinctConcat(idx, OwnIdx(parts[m], slots, j));
    }
  }

  lemma PieceCarries(ws: Weights, parts: seq<Part>, slots: seq<Slot>, vtype: ValueType, j: nat)
    requires EntryFits(parts, slots) && EntryHolds(ws, parts, slots) && j < |slots| && parts != []
    ensures CarriesValues(ws, WholeDelta(slots, vtype, parts)[j])
  {
    assert PartsHold(ws, parts, slots, j) && OwnHolds(ws, parts[0], slots, j);
    WholeHolds(ws, parts, slots, j, |parts|);
  }

  // ---------- all slots ----------

  lemma {:induction false} InPutSlots<G>(puts: seq<SlotPut<G>>, p: FlushPiece)
    ensures p in PutSlots(puts) <==> exists i :: 0 <= i < |puts| && p in puts[i].entry
  {
    if puts != [] {
      var n := |puts| - 1;
      InPutSlots(puts[..n], p);
      assert puts == puts[..n] + [puts[n]];
    }
  }

  lemma ShippedIsGathered(views: seq<seq<OwnPut>>, n: string, x: nat)
    requires Lockstep(views) && Shipped(views, n, x)
    ensures Ships(PutSlots(Gathered(views)), n, x)
  {
    var i :| 0 <= i < |views[0]| && ShippedFor(PartsAt(views, i), views[0][i].entry.slots, n, x);
    var parts, slots := PartsAt(views, i), views[0][i].entry.slots;
    var j :| 0 <= j < |slots| && slots[j].name == n && ShippedBy(parts, slots, j, x);
    ShippedSlot(parts, slots, views[0][i].entry.vtype, j, x);
    assert WholeAt(views, i)[j] in Gathered(views)[i].entry;
    InPutSlots(Gathered(views), WholeAt(views, i)[j]);
  }

  lemma ShippedSlot(parts: seq<Part>, slots: seq<Slot>, vtype: ValueType, j: nat, x: nat)
    requires EntryFits(parts, slots) && j < |slots| && ShippedBy(parts, slots, j, x)
    ensures var p := WholeDelta(slots, vtype, parts)[j]; p.name == slots[j].name && x in p.idx
  {
    var m :| 0 <= m < |parts| && PartFits(parts[m], slots) && x in OwnIdx(parts[m], slots, j);
    DeltaHas(parts, slots, j, |parts|, m, x);
  }

  /** Gathered, the parts of the ranks are the difference of the two states. */
  lemma PartsAreDelta(old_: Weights, new_: Weights, views: seq<seq<OwnPut>>)
    requires HoldChanges(old_, new_, views)
    ensures IsDelta(old_, new_, PutSlots(Gathered(views)))
  {
    var slots := PutSlots(Gathered(views));
    forall k | 0 <= k < |slots| ensures CarriesValues(new_, slots[k]) {
      InPutSlots(Gathered(views), slots[k]);
      var i :| 0 <= i < |views[0]| && slots[k] in Gathered(views)[i].entry;
      var j :| 0 <= j < |WholeAt(views, i)| && slots[k] == WholeAt(views, i)[j];
      PieceCarries(new_, PartsAt(views, i), views[0][i].entry.slots, views[0][i].entry.vtype, j);
    }
    forall n, x | n in old_ && n in new_ && 0 <= x < |old_[n]| && x < |new_[n]| && old_[n][x] != new_[n][x]
      ensures Ships(slots, n, x)
    {
      ShippedIsGathered(views, n, x);
    }
  }
}
