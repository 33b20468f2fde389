/** What the delta engine is for: after every synchronisation the rollout holds the
    trainer's weights (verl/checkpoint_engine/delta_checkpoint_engine.py, send_weights;
    verl/workers/rollout/sglang_rollout/delta_loader.py, apply_delta, _verify_dense). */
module DeltaSync {
  import opened DeltaBuckets
  import opened DeltaEngine
  import opened DeltaGather
  import opened DeltaMessages
  import opened DeltaParts
  import opened DeltaRounds
  import opened DeltaWire
  import opened FlushBuckets
  import opened GatherQueues
  import opened ShardExports
  import opened ValueTypes
  import opened WeightChunks
  import opened WeightDeltas

  // ---------- steady synchronisations ----------

  /** Whatever the batching, slicing and bucketing, and whether or not a sweep
      follows, a steady synchronisation takes the rollout from the trainer's old
      weights to its new ones, if and only if no changed element is NaN afterwards. */
  lemma SteadySyncIff(old_: Weights, new_: Weights, views: seq<seq<OwnPut>>, batchGather: int, cap: int, verify: bool)
    requires Lockstep(views) && IsDelta(old_, new_, PutSlots(Gathered(views)))
    requires SlotsEncodable(PutSlots(Gathered(views)))
    ensures ApplyMessages(old_, SteadyMessages(RoundSlots(views, batchGather), cap, verify)) == new_
            <==> NoneChangesToNaN(old_, new_)
  {
    var puts, slots := Gathered(views), RoundSlots(views, batchGather);
    var rounds := SlotsOf(AllRounds(puts, BatchOf(batchGather)));
    DeltaFits(old_, new_, PutSlots(puts));
    BatchingIsTransparent(old_, puts, BatchOf(batchGather));
    DeliveredSame(views, BatchOf(batchGather));
    SameFit(old_, slots, rounds);
    SameApplied(old_, slots, rounds);
    RoundsWellFormed(views, batchGather);
    SteadyApplies(old_, slots, cap, verify);
    DeltaIsExactIff(old_, new_, PutSlots(puts));
  }

  /** From the parts that the ranks put to the weights of the rollout: what the engine
      publishes takes the old weights to the new ones, if and only if no changed element
      is NaN afterwards. */
  lemma PartsReachRolloutIff(old_: Weights, new_: Weights, views: seq<seq<OwnPut>>, batchGather: int, cap: int,
                             verify: bool)
    requires HoldChanges(old_, new_, views)
    ensures var sent := SteadySent(RoundSlots(views, batchGather), cap, verify);
            && (sent.ok <==> SlotsEncodable(PutSlots(Gathered(views))))
            && (sent.ok ==> (ApplyMessages(old_, sent.messages) == new_ <==> NoneChangesToNaN(old_, new_)))
  {
    PartsAreDelta(old_, new_, views);
    DeltaFits(old_, new_, PutSlots(Gathered(views)));
    RoundsWellFormed(views, batchGather);
    if SlotsEncodable(PutSlots(Gathered(views))) {
      SteadySyncIff(old_, new_, views, batchGather, cap, verify);
    }
  }

  /** From the shards of the ranks: when the contributing shards partition every
      parameter, their byte differences are published if and only if no changed parameter
      is too large, and then take the rollout from the old weights to the new ones, if and
      only if no changed element is NaN afterwards. */
  lemma ShardsReachRolloutIff(params: seq<Param>, shards: seq<seq<Shard>>, old_: Weights, new_: Weights,
                              batchGather: int, cap: int, verify: bool)
    requires Sharding(params, shards) && Describe(params, old_) && Describe(params, new_)
    ensures var views := ExportOf(params, shards, old_, new_);
            && Lockstep(views)
            && var sent := SteadySent(RoundSlots(views, batchGather), cap, verify);
            && (sent.ok <==> ChangesEncodable(params, old_, new_))
            && (sent.ok ==> (ApplyMessages(old_, sent.messages) == new_ <==> NoneChangesToNaN(old_, new_)))
  {
    ExportsHoldChanges(params, shards, old_, new_);
    ExportEncodableIff(params, shards, old_, new_);
    PartsReachRolloutIff(old_, new_, ExportOf(params, shards, old_, new_), batchGather, cap, verify);
  }

  /** No changed parameter is too large for int32 positions. */
  predicate ChangesEncodable(params: seq<Param>, old_: Weights, new_: Weights)
    requires HaveWeights(params, old_) && HaveWeights(params, new_)
  {
    forall i :: 0 <= i < |params| ==> ChangeEncodable(params[i], old_, new_)
  }

  predicate ChangeEncodable(p: Param, old_: Weights, new_: Weights) {
    HasWeight(p, old_) && HasWeight(p, new_) && old_[p.slot.name] != new_[p.slot.name] ==>
        Numel(p.slot.shape) < INT32_BOUND
  }

  lemma ExportEncodableIff(params: seq<Param>, shards: seq<seq<Shard>>, old_: Weights, new_: Weights)
    requires Sharding(params, shards) && Describe(params, old_) && Describe(params, new_)
    requires HoldChanges(old_, new_, ExportOf(params, shards, old_, new_))
    ensures SlotsEncodable(PutSlots(Gathered(ExportOf(params, shards, old_, new_))))
            <==> ChangesEncodable(params, old_, new_)
  {
    PartsAreDelta(old_, new_, ExportOf(params, shards, old_, new_));
    if SlotsEncodable(PutSlots(Gathered(ExportOf(params, shards, old_, new_)))) {
      forall i | 0 <= i < |params| ensures ChangeEncodable(params[i], old_, new_) {
        ShippedEncodable(params[i], old_, new_, PutSlots(Gathered(ExportOf(params, shards, old_, new_))));
      }
    }
    if ChangesEncodable(params, old_, new_) {
      ChangesFit(params, shards, old_, new_);
    }
  }

  lemma ChangesFit(params: seq<Param>, shards: seq<seq<Shard>>, old_: Weights, new_: Weights)
    requires Sharding(params, shards) && Describe(params, old_) && Describe(params, new_)
    requires Lockstep(ExportOf(params, shards, old_, new_)) && ChangesEncodable(params, old_, new_)
    ensures SlotsEncodable(PutSlots(Gathered(ExportOf(params, shards, old_, new_))))
  {
    var views := ExportOf(params, shards, old_, new_);
    var slots := PutSlots(Gathered(views));
    forall k | 0 <= k < |slots| && slots[k].idx != [] ensures Numel(slots[k].shape) < INT32_BOUND {
      InPutSlots(Gathered(views), slots[k]);
      var i :| 0 <= i < |views[0]| && slots[k] in Gathered(views)[i].entry;
      ChangeFits(params, shards, old_, new_, i, slots[k]);
    }
  }

  lemma ChangeFits(params: seq<Param>, shards: seq<seq<Shard>>, old_: Weights, new_: Weights, i: nat, piece: FlushPiece)
    requires Sharding(params, shards) && Describe(params, old_) && Describe(params, new_) && i < |params|
    requires Lockstep(ExportOf(params, shards, old_, new_)) && ChangesEncodable(params, old_, new_)
    requires piece in WholeAt(ExportOf(params, shards, old_, new_), i) && piece.idx != []
    ensures Numel(piece.shape) < INT32_BOUND
  {
    WholeChanged(params, shards, old_, new_, i);
    assert ChangeEncodable(params[i], old_, new_) && HasWeight(params[i], old_) && HasWeight(params[i], new_);
  }

  lemma ShippedEncodable(p: Param, old_: Weights, new_: Weights, slots: seq<FlushPiece>)
    requires IsDelta(old_, new_, slots) && SlotsEncodable(slots) && HasWeight(p, old_) && HasWeight(p, new_)
    ensures ChangeEncodable(p, old_, new_)
  {
    var n := p.slot.name;
    if old_[n] != new_[n] {
      var x :| 0 <= x < |old_[n]| && old_[n][x] != new_[n][x];
      var piece :| piece in slots && piece.name == n && x in piece.idx;
      assert CarriesValues(new_, piece);
    }
  }

  // ---------- the sweep ----------

  lemma {:induction false} IndexedNotSwept(ws: Weights, half: set<string>, published: seq<Published<FlushPiece>>)
    ensures SweepBad(ws, half, IndexedOf(published)) == 0
  {
    if published != [] {
      var n := |published| - 1;
      IndexedNotSwept(ws, half, published[..n]);
      LastSwept(ws, half, IndexedOf(published[..n]),
                Indexed(Assembled(Pieces(published[n].flush)), published[n].isLast));
    }
  }

  lemma {:induction false} SweepConcat(ws: Weights, half: set<string>, a: seq<Message>, b: seq<Message>)
    ensures SweepBad(ws, half, a + b) == SweepBad(ws, half, a) + SweepBad(ApplyMessages(ws, a), half, b)
  {
    if b == [] {
      assert a + b == a;
    } else {
      var n := |b| - 1;
      assert (a + b)[..|a| + n] == a + b[..n] && (a + b)[|a| + n] == b[n];
      SweepConcat(ws, half, a, b[..n]);
      ApplyMessagesConcat(ws, a, b[..n]);
    }
  }

  /** The sweep of a synchronisation finds nothing if and only if, after the indexed
      part, every exported parameter compares equal to the export: by bits for
      two-byte floats, as numbers otherwise. Either way the export is then loaded. */
  lemma SweepIff(ws: Weights, half: set<string>, slots: seq<FlushPiece>, full: seq<ValuesPiece>, cap: int)
    requires DistinctParams(full)
    ensures var after := ApplyMessages(ws, SteadyMessages(slots, cap, true));
            && (SweepBad(ws, half, SyncMessages(slots, full, cap, true)) == 0 <==> Passes(after, half, full))
            && ApplyMessages(ws, SyncMessages(slots, full, cap, true)) == SetAll(after, full)
  {
    var steady, seed := SteadyMessages(slots, cap, true), SeedMessages(full, cap, true);
    var after := ApplyMessages(ws, steady);
    IndexedNotSwept(ws, half, Stream(Flushes(Sliced(slots), cap), false));
    SweepConcat(ws, half, steady, seed);
    ApplyMessagesConcat(ws, steady, seed);
    SeedSets(after, half, full, cap, true);
    NothingBadIff(after, half, full);
  }

  // ---------- whole runs ----------

  /** The export of the given weights: each parameter once, with its value. */
  predicate IsExport(full: seq<ValuesPiece>, ws: Weights) {
    && DistinctParams(full) && Names(full) == ws.Keys
    && forall i :: 0 <= i < |full| ==> full[i].name in ws && ws[full[i].name] == full[i].flat
  }

  lemma {:induction false} LoadsAll(ws: Weights, full: seq<ValuesPiece>, target: Weights)
    requires SameSizes(ws, target)
    requires forall i :: 0 <= i < |full| ==> full[i].name in target && target[full[i].name] == full[i].flat
    ensures SameSizes(SetAll(ws, full), target)
    ensures forall n :: n in Names(full) && n in target ==> SetAll(ws, full)[n] == target[n]
    ensures forall n :: n in ws && n !in Names(full) ==> SetAll(ws, full)[n] == ws[n]
  {
    if full != [] {
      LoadsAll(ws, full[..|full| - 1], target);
    }
  }

  /** After the seed, a rollout with the trainer's parameters holds their values,
      whatever it held before. */
  lemma SeedReaches(rollout: Weights, trainer: Weights, full: seq<ValuesPiece>, cap: int)
    requires IsExport(full, trainer) && SameSizes(rollout, trainer)
    ensures ApplyMessages(rollout, SeedMessages(full, cap, false)) == trainer
  {
    SeedSets(rollout, {}, full, cap, false);
    LoadsAll(rollout, full, trainer);
    var after := SetAll(rollout, full);
    assert after.Keys == trainer.Keys && forall n :: n in trainer ==> after[n] == trainer[n];
  }

  /** No NaN in a parameter that is not of a two-byte float type. */
  predicate NaNOnlyIn(ws: Weights, half: set<string>) {
    forall n :: n in ws && n !in half ==> NoNaN(ws[n])
  }

  predicate NoNaN(w: seq<Float>) {
    forall i :: 0 <= i < |w| ==> !w[i].NaN?
  }

  /** A rollout that holds exactly the exported weights passes the sweep if and only if
      no parameter outside the two-byte floats holds a NaN. */
  lemma EqualPassesIff(ws: Weights, half: set<string>, full: seq<ValuesPiece>)
    requires IsExport(full, ws)
    ensures Passes(ws, half, full) <==> NaNOnlyIn(ws, half)
    ensures SetAll(ws, full) == ws
  {
    LoadsAll(ws, full, ws);
    assert forall n :: n in ws ==> SetAll(ws, full)[n] == ws[n];
    if NaNOnlyIn(ws, half) {
      forall i | 0 <= i < |full| ensures PassesAt(ws, half, full[i]) {
        assert full[i].name !in half ==> NoNaN(ws[full[i].name]);
      }
    } else {
      var n :| n in ws && n !in half && !NoNaN(ws[n]);
      NamesAre(full, n);
      var i :| 0 <= i < |full| && full[i].name == n;
      assert !PassesAt(ws, half, full[i]);
    }
  }

  /** One sound synchronisation: the ranks put what changed in their shards, nothing is
      too large and nothing becomes NaN. It succeeds and takes the rollout to the
      trainer's new weights; its sweep, if there is one, finds nothing if and only if no
      parameter outside the two-byte floats holds a NaN. */
  lemma SoundStep(before: Weights, after: Weights, half: set<string>, full: seq<ValuesPiece>, views: seq<seq<OwnPut>>,
                  batchGather: int, cap: int, verify: bool)
    requires HoldChanges(before, after, views) && SlotsEncodable(PutSlots(Gathered(views)))
    requires NoneChangesToNaN(before, after) && IsExport(full, after)
    ensures var sent := SyncSent(RoundSlots(views, batchGather), full, cap, verify);
            && sent.ok && ApplyMessages(before, sent.messages) == after
            && (SweepBad(before, half, sent.messages) == 0 <==> (verify ==> NaNOnlyIn(after, half)))
  {
    var slots := RoundSlots(views, batchGather);
    PartsReachRolloutIff(before, after, views, batchGather, cap, verify);
    if verify {
      SweepIff(before, half, slots, full, cap);
      EqualPassesIff(after, half, full);
    } else {
      IndexedNotSwept(before, half, Stream(Flushes(Sliced(slots), cap), true));
      LastSwept(before, half, [], Terminal(false));
    }
  }

  // ---------- instances ----------

  lemma OneExport(w: seq<Float>, nbytes: nat)
    ensures IsExport([ValuesPiece("w", "float32", [|w|], w, nbytes)], map["w" := w])
  {
    var full := [ValuesPiece("w", "float32", [|w|], w, nbytes)];
    assert Names(full) == Names(full[..0]) + {"w"} == {"w"};
  }

  /** A parameter of a four-byte float type whose element is NaN and stays NaN: nothing
      changes, the rollout agrees bit for bit, and yet the sweep counts a mismatch. */
  lemma UnchangedNaNFailsSweep(batchGather: int, cap: int)
    ensures var ws: Weights, full := map["w" := [NaN(0)]], [ValuesPiece("w", "float32", [1], [NaN(0)], 4)];
            && Lockstep([[]])
            && var sent := SyncSent(RoundSlots([[]], batchGather), full, cap, true);
            sent.ok && ApplyMessages(ws, sent.messages) == ws && SweepBad(ws, {}, sent.messages) > 0
  {
    var ws: Weights, full := map["w" := [NaN(0)]], [ValuesPiece("w", "float32", [1], [NaN(0)], 4)];
    OneExport([NaN(0)], 4);
    assert PutSlots(Gathered([[]])) == [] && HoldChanges(ws, ws, [[]]);
    SoundStep(ws, ws, {}, full, [[]], batchGather, cap, true);
    assert !NoNaN(ws["w"]) by {
      assert ws["w"][0].NaN?;
    }
    assert !NaNOnlyIn(ws, {});
  }

  /** An element that changes from one NaN to another: the byte difference ships it,
      the mask drops it, and the rollout keeps the old one. */
  lemma ChangedNaNIsDropped()
    ensures var old_: Weights, new_: Weights := map["w" := [NaN(0)]], map["w" := [NaN(1)]];
            var slots := [FlushPiece("w", "bfloat16", [1], BFloat16, [0], [NaN(1)])];
            IsDelta(old_, new_, slots) && ApplyPieces(old_, slots) != new_
  {
    var old_: Weights, new_: Weights := map["w" := [NaN(0)]], map["w" := [NaN(1)]];
    var p := FlushPiece("w", "bfloat16", [1], BFloat16, [0], [NaN(1)]);
    assert Numel([1]) == 1 * Numel([1][1..]) == 1;
    assert WellFormed(p) && Fits(old_, p);
    assert p in [p] && 0 in p.idx && CarriesValues(new_, p) && Ships([p], "w", 0);
    DeltaIsExactIff(old_, new_, [p]);
    assert !NoChangeToNaN(old_["w"], new_["w"]) by {
      assert old_["w"][0] != new_["w"][0] && new_["w"][0].NaN?;
    }
  }

  /** The two zeros: not the same bits, but the sweep of a four-byte float passes. */
  lemma SignedZeroPasses()
    ensures !SameElements([Zero(false)], [Zero(true)], true) && SameElements([Zero(false)], [Zero(true)], false)
  {
    assert !SameElement([Zero(false)][0], [Zero(true)][0], true);
  }
}
