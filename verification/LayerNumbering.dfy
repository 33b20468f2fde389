/** Global layer numbers when the state dicts of pipeline chunks are merged
    (verl/model_merger/megatron_model_merger.py and scripts/legacy_model_merger.py,
    _merge_state_dicts). A chunk is the list of the local layer numbers of its keys;
    one layer has many keys. */
module LayerNumbering {
  /** The largest local number, 0 when there is none. */
  function Handled(locals: seq<nat>): nat {
    if locals == [] then 0 else
      var earlier, last := Handled(locals[..|locals| - 1]), locals[|locals| - 1];
      if earlier < last then last else earlier
  }

  /** layers_cum when chunk k is merged. */
  function Offset(chunks: seq<seq<nat>>, start: nat, k: nat): nat
    requires k <= |chunks|
  {
    if k == 0 then start else Offset(chunks, start, k - 1) + Handled(chunks[k - 1]) + 1
  }

  method RenumberChunk(locals: seq<nat>, layersCum: nat) returns (global: seq<nat>, layersHandled: nat)
    ensures |global| == |locals| && forall i :: 0 <= i < |locals| ==> global[i] == locals[i] + layersCum
    ensures layersHandled == Handled(locals)
  {
    global, layersHandled := [], 0;
    for i := 0 to |locals|
      invariant |global| == i && forall j :: 0 <= j < i ==> global[j] == locals[j] + layersCum
      invariant layersHandled == Handled(locals[..i])
    {
      assert locals[..i + 1][..i] == locals[..i];
      if layersHandled < locals[i] {
        layersHandled := locals[i];
      }
      global := global + [locals[i] + layersCum];
    }
    assert locals[..|locals|] == locals;
  }

  predicate IsShifted(global: seq<nat>, locals: seq<nat>, offset: nat) {
    |global| == |locals| && forall i :: 0 <= i < |locals| ==> global[i] == locals[i] + offset
  }

  predicate ShiftedAt(global: seq<seq<nat>>, chunks: seq<seq<nat>>, start: nat, k: nat)
    requires k < |global| && k < |chunks|
  {
    IsShifted(global[k], chunks[k], Offset(chunks, start, k))
  }

  method Renumber(chunks: seq<seq<nat>>, start: nat) returns (global: seq<seq<nat>>)
    ensures |global| == |chunks| && forall k :: 0 <= k < |chunks| ==> ShiftedAt(global, chunks, start, k)
  {
    global := [];
    var layersCum := start;
    for k := 0 to |chunks|
      invariant |global| == k && layersCum == Offset(chunks, start, k)
      invariant forall j {:trigger ShiftedAt(global, chunks, start, j)} :: 0 <= j < k ==>
                  ShiftedAt(global, chunks, start, j)
    {
      var numbers, layersHandled := RenumberChunk(chunks[k], layersCum);
      ShiftedNext(global, numbers, chunks, start);
      global := global + [numbers];
      layersCum := layersCum + layersHandled + 1;
    }
  }

  lemma ShiftedNext(global: seq<seq<nat>>, numbers: seq<nat>, chunks: seq<seq<nat>>, start: nat)
    requires |global| < |chunks| && forall j :: 0 <= j < |global| ==> ShiftedAt(global, chunks, start, j)
    requires IsShifted(numbers, chunks[|global|], Offset(chunks, start, |global|))
    ensures forall j :: 0 <= j <= |global| ==> ShiftedAt(global + [numbers], chunks, start, j)
  {
    forall j | 0 <= j <= |global| ensures ShiftedAt(global + [numbers], chunks, start, j) {
      assert j < |global| ==> ShiftedAt(global, chunks, start, j) && (global + [numbers])[j] == global[j];
    }
  }

  // ---------- when the numbers are right ----------

  /** The chunk has the layers 0 to count - 1, each under some key. */
  predicate HasLayers(locals: seq<nat>, count: nat) {
    (forall i :: 0 <= i < |locals| ==> locals[i] < count) && forall n :: 0 <= n < count ==> n in locals
  }

  predicate AllHaveLayers(chunks: seq<seq<nat>>, counts: seq<nat>) {
    |chunks| == |counts| && forall k :: 0 <= k < |chunks| ==> HasLayers(chunks[k], counts[k])
  }

  /** The number of layers in the chunks before k. */
  function Before(counts: seq<nat>, k: nat): nat
    requires k <= |counts|
  {
    if k == 0 then 0 else Before(counts, k - 1) + counts[k - 1]
  }

  function Empties(counts: seq<nat>, k: nat): nat
    requires k <= |counts|
  {
    if k == 0 then 0 else Empties(counts, k - 1) + if counts[k - 1] == 0 then 1 else 0
  }

  lemma {:induction false} HandledBounds(locals: seq<nat>)
    ensures forall i :: 0 <= i < |locals| ==> locals[i] <= Handled(locals)
    ensures locals != [] ==> Handled(locals) in locals
  {
    if locals != [] {
      HandledBounds(locals[..|locals| - 1]);
      assert locals == locals[..|locals| - 1] + [locals[|locals| - 1]];
    }
  }

  lemma HandledOf(locals: seq<nat>, count: nat)
    requires HasLayers(locals, count)
    ensures Handled(locals) + 1 == if count == 0 then 1 else count
  {
    HandledBounds(locals);
    if count > 0 {
      assert count - 1 in locals;
    }
  }

  /** Every empty chunk shifts all later numbers by one. */
  lemma {:induction false} OffsetIs(chunks: seq<seq<nat>>, counts: seq<nat>, start: nat, k: nat)
    requires AllHaveLayers(chunks, counts) && k <= |chunks|
    ensures Offset(chunks, start, k) == start + Before(counts, k) + Empties(counts, k)
  {
    if k > 0 {
      OffsetIs(chunks, counts, start, k - 1);
      HandledOf(chunks[k - 1], counts[k - 1]);
    }
  }

  lemma {:induction false} NoEmptiesIff(counts: seq<nat>, k: nat)
    requires k <= |counts|
    ensures Empties(counts, k) == 0 <==> forall j :: 0 <= j < k ==> counts[j] > 0
  {
    if k > 0 {
      NoEmptiesIff(counts, k - 1);
    }
  }

  /** Layer n of chunk k should be preceded by all layers of the earlier chunks. */
  predicate NumberedRight(chunks: seq<seq<nat>>, counts: seq<nat>, start: nat, k: nat)
    requires AllHaveLayers(chunks, counts) && k < |chunks|
  {
    counts[k] > 0 ==> Offset(chunks, start, k) == start + Before(counts, k)
  }

  /** All layers get their true numbers if and only if no chunk with layers comes after
      a chunk without any. */
  lemma NumberedRightIff(chunks: seq<seq<nat>>, counts: seq<nat>, start: nat)
    requires AllHaveLayers(chunks, counts)
    ensures (forall k :: 0 <= k < |chunks| ==> NumberedRight(chunks, counts, start, k))
            <==> forall j, k :: 0 <= j < k < |counts| && counts[k] > 0 ==> counts[j] > 0
  {
    forall k | 0 <= k < |chunks|
      ensures NumberedRight(chunks, counts, start, k) <==> counts[k] == 0 || forall j :: 0 <= j < k ==> counts[j] > 0 {
      OffsetIs(chunks, counts, start, k);
      NoEmptiesIff(counts, k);
    }
  }
}
