/** Whole runs of the delta engine: the seed, and then any number of steady
    synchronisations, each with the snapshots that the one before left, with a sweep at
    every verify_every-th (verl/checkpoint_engine/delta_checkpoint_engine.py,
    send_weights; verl/workers/engine/utils.py, hf_delta_export). */
module DeltaRuns {
  import opened DeltaBuckets
  import opened DeltaEngine
  import opened DeltaGather
  import opened DeltaMessages
  import opened DeltaParts
  import opened DeltaRounds
  import opened DeltaSync
  import opened DeltaWire
  import opened ShardExports
  import opened WeightDeltas
  import opened Wrappers

  /** What does not change in a run. */
  datatype Config = Config(params: seq<Param>, shards: seq<seq<Shard>>, bucketSize: int, batchGather: int,
                           verifyEvery: int)

  /** The engine's state, the snapshots of all ranks, and the weights of the rollout. */
  datatype System = System(seeded: bool, steadySyncs: nat, snaps: seq<Snapshots>, rollout: Weights)

  /** After one synchronisation: what was published, and whether it ended with a sweep. */
  datatype Synced = Synced(sys: System, sent: Sent, verify: bool)

  predicate Sized(c: Config, snaps: seq<Snapshots>, trainer: Weights) {
    && Sharding(c.params, c.shards) && Describe(c.params, trainer) && |snaps| == |c.shards|
  }

  lemma RanksFit(c: Config, snaps: seq<Snapshots>, trainer: Weights)
    requires Sized(c, snaps, trainer)
    ensures forall r :: 0 <= r < |c.shards| ==> RankFits(c.params, c.shards[r], trainer)
  {
  }

  /** What the exporters of all ranks do. */
  function Exports(c: Config, snaps: seq<Snapshots>, trainer: Weights): (r: seq<Exported>)
    requires Sized(c, snaps, trainer)
    ensures |r| == |c.shards|
  {
    seq(|c.shards|, r requires 0 <= r < |c.shards| => ExportAt(c, snaps, trainer, r))
  }

  function ExportAt(c: Config, snaps: seq<Snapshots>, trainer: Weights, r: nat): Exported
    requires Sized(c, snaps, trainer) && r < |c.shards|
  {
    RanksFit(c, snaps, trainer);
    ExportUpTo(ItemsOf(c.params, c.shards[r], trainer), snaps[r], |c.params|)
  }

  function PrimedSnaps(c: Config, snaps: seq<Snapshots>, trainer: Weights): (r: seq<Snapshots>)
    requires Sized(c, snaps, trainer)
    ensures |r| == |c.shards|
  {
    RanksFit(c, snaps, trainer);
    seq(|c.shards|, r requires 0 <= r < |c.shards| =>
      Primed(ItemsOf(c.params, c.shards[r], trainer), snaps[r], |c.params|))
  }

  function PutsOf(exports: seq<Exported>): (r: seq<seq<OwnPut>>)
    ensures |r| == |exports|
  {
    seq(|exports|, r requires 0 <= r < |exports| => exports[r].puts)
  }

  function SnapsOf(exports: seq<Exported>): (r: seq<Snapshots>)
    ensures |r| == |exports|
  {
    seq(|exports|, r requires 0 <= r < |exports| => exports[r].snaps)
  }

  predicate AllOk(exports: seq<Exported>) {
    forall r :: 0 <= r < |exports| ==> exports[r].ok
  }

  /** One synchronisation of the trainer's present weights; none when an exporter's
      assertion fires or the ranks are out of step. */
  function Sync(c: Config, sys: System, trainer: Weights, full: seq<ValuesPiece>): Option<Synced>
    requires Sized(c, sys.snaps, trainer)
  {
    if !sys.seeded then
      var sent := SeedSent(full, c.bucketSize, false);
      var snaps := if sent.ok then PrimedSnaps(c, sys.snaps, trainer) else sys.snaps;
      Some(Synced(System(sent.ok, sys.steadySyncs, snaps, ApplyMessages(sys.rollout, sent.messages)), sent, false))
    else
      var exports := Exports(c, sys.snaps, trainer);
      if !AllOk(exports) || !Lockstep(PutsOf(exports)) then None
      else Some(Steady(c, sys, PutsOf(exports), SnapsOf(exports), full))
  }

  /** A steady synchronisation of what the ranks put. */
  function Steady(c: Config, sys: System, views: seq<seq<OwnPut>>, snaps: seq<Snapshots>,
                  full: seq<ValuesPiece>): Synced
    requires Lockstep(views)
  {
    SteadyOf(c, sys, RoundSlots(views, c.batchGather), snaps, full)
  }

  function SteadyOf(c: Config, sys: System, slots: seq<FlushPiece>, snaps: seq<Snapshots>,
                    full: seq<ValuesPiece>): Synced {
    var verify := Sweeps(slots, c.bucketSize, c.verifyEvery, sys.steadySyncs);
    var sent := SyncSent(slots, full, c.bucketSize, verify);
    var counted := sys.steadySyncs + Counted(slots, c.bucketSize);
    Synced(System(true, counted, snaps, ApplyMessages(sys.rollout, sent.messages)), sent, verify)
  }

  // ---------- one synchronisation ----------

  /** The rollout has the weights of the trainer, and the snapshots are its shards. */
  predicate InSync(c: Config, sys: System, trainer: Weights, steadySyncs: nat) {
    && Sized(c, sys.snaps, trainer)
    && sys.seeded && sys.steadySyncs == steadySyncs && sys.rollout == trainer
    && forall r :: 0 <= r < |c.shards| ==> RankHolds(c, sys.snaps[r], r, trainer)
  }

  predicate RankHolds(c: Config, snaps: Snapshots, r: nat, trainer: Weights)
    requires r < |c.shards|
  {
    && RankFits(c.params, c.shards[r], trainer)
    && SnapsHold(snaps, c.params, c.shards[r], trainer, 0, |c.params|)
  }

  lemma SeedInSync(c: Config, sys: System, trainer: Weights, full: seq<ValuesPiece>)
    requires Sized(c, sys.snaps, trainer) && DistinctSlots(c.params) && !sys.seeded && sys.steadySyncs == 0
    requires IsExport(full, trainer) && SameSizes(sys.rollout, trainer)
    ensures var r := Sync(c, sys, trainer, full);
            && r.Some? && r.value.sent.ok && !r.value.verify && InSync(c, r.value.sys, trainer, 0)
            && forall half :: SweepBad(sys.rollout, half, r.value.sent.messages) == 0
  {
    SeedKinds(full, c.bucketSize, false);
    forall half: set<string> ensures SweepBad(sys.rollout, half, SeedSent(full, c.bucketSize, false).messages) == 0 {
      SeedNotSwept(sys.rollout, half, SeedSent(full, c.bucketSize, false).messages);
    }
    SeedReaches(sys.rollout, trainer, full, c.bucketSize);
    RanksFit(c, sys.snaps, trainer);
    var snaps := PrimedSnaps(c, sys.snaps, trainer);
    forall r | 0 <= r < |c.shards| ensures RankHolds(c, snaps[r], r, trainer) {
      PrimedHold(c.params, c.shards[r], trainer, ItemsOf(c.params, c.shards[r], trainer), sys.snaps[r], |c.params|);
    }
  }

  /** A seed fails if and only if the export repeats a name; then the engine is not seeded
      and no snapshot is taken. */
  lemma SeedFailsIff(c: Config, sys: System, trainer: Weights, full: seq<ValuesPiece>)
    requires Sized(c, sys.snaps, trainer) && !sys.seeded
    ensures var r := Sync(c, sys, trainer, full);
            && r.Some? && (r.value.sent.ok <==> DistinctParams(full))
            && (!r.value.sent.ok ==> !r.value.sys.seeded && r.value.sys.snaps == sys.snaps)
            && r.value.sys.steadySyncs == sys.steadySyncs
  {
  }

  /** The exporters that hold the old state yield what the ranks put for the new one, and
      hold the new one afterwards. */
  lemma ExportsAre(c: Config, sys: System, old_: Weights, new_: Weights, steadySyncs: nat)
    requires InSync(c, sys, old_, steadySyncs) && Describe(c.params, new_) && DistinctSlots(c.params)
    ensures var exports := Exports(c, sys.snaps, new_);
            && AllOk(exports) && PutsOf(exports) == ExportOf(c.params, c.shards, old_, new_)
            && forall r :: 0 <= r < |c.shards| ==> RankHolds(c, exports[r].snaps, r, new_)
  {
    RanksFit(c, sys.snaps, new_);
    forall r | 0 <= r < |c.shards| ensures ExportIs(c, sys.snaps, old_, new_, r) {
      assert RankHolds(c, sys.snaps[r], r, old_);
      ExportOne(c, sys.snaps, old_, new_, r);
    }
    AllExportsAre(c, sys.snaps, old_, new_);
  }

  predicate ExportIs(c: Config, snaps: seq<Snapshots>, old_: Weights, new_: Weights, r: nat)
    requires Sized(c, snaps, new_) && Describe(c.params, old_) && r < |c.shards|
  {
    var e := ExportAt(c, snaps, new_, r);
    e.ok && e.puts == RankExport(c.params, c.shards, old_, new_, r) && RankHolds(c, e.snaps, r, new_)
  }

  lemma AllExportsAre(c: Config, snaps: seq<Snapshots>, old_: Weights, new_: Weights)
    requires Sized(c, snaps, new_) && Describe(c.params, old_)
    requires forall r :: 0 <= r < |c.shards| ==> ExportIs(c, snaps, old_, new_, r)
    ensures var exports := Exports(c, snaps, new_);
            && AllOk(exports) && PutsOf(exports) == ExportOf(c.params, c.shards, old_, new_)
            && forall r :: 0 <= r < |c.shards| ==> RankHolds(c, exports[r].snaps, r, new_)
  {
    var exports := Exports(c, snaps, new_);
    forall r | 0 <= r < |c.shards|
      ensures exports[r].ok && PutsOf(exports)[r] == ExportOf(c.params, c.shards, old_, new_)[r]
      ensures RankHolds(c, exports[r].snaps, r, new_)
    {
      assert ExportIs(c, snaps, old_, new_, r);
    }
  }

  lemma ExportOne(c: Config, snaps: seq<Snapshots>, old_: Weights, new_: Weights, r: nat)
    requires Sized(c, snaps, new_) && Describe(c.params, old_) && DistinctSlots(c.params) && r < |c.shards|
    requires RankHolds(c, snaps[r], r, old_) && RankFits(c.params, c.shards[r], new_)
    ensures ExportIs(c, snaps, old_, new_, r)
  {
    ExportYields(c.params, c.shards[r], old_, new_, snaps[r], |c.params|);
    YieldsAre(c.params, c.shards, old_, new_, r, ExportAt(c, snaps, new_, r));
  }

  /** From one state of the trainer to the next: nothing becomes NaN, and no changed
      parameter is too large. */
  predicate SoundChange(c: Config, old_: Weights, new_: Weights) {
    && Describe(c.params, old_) && Describe(c.params, new_)
    && NoneChangesToNaN(old_, new_) && ChangesEncodable(c.params, old_, new_)
  }

  lemma SteadyInSync(c: Config, sys: System, old_: Weights, new_: Weights, full: seq<ValuesPiece>, half: set<string>,
                     n: nat)
    requires InSync(c, sys, old_, n) && DistinctSlots(c.params) && SoundChange(c, old_, new_) && IsExport(full, new_)
    ensures var r := Sync(c, sys, new_, full);
            && r.Some? && r.value.sent.ok && r.value.verify == Due(c.verifyEvery, n + 1)
            && InSync(c, r.value.sys, new_, n + 1)
            && (SweepBad(old_, half, r.value.sent.messages) == 0 <==> (r.value.verify ==> NaNOnlyIn(new_, half)))
  {
    var exports, views := Exports(c, sys.snaps, new_), ExportOf(c.params, c.shards, old_, new_);
    ExportsAre(c, sys, old_, new_, n);
    ExportsHoldChanges(c.params, c.shards, old_, new_);
    ExportEncodableIff(c.params, c.shards, old_, new_);
    SteadySound(c, sys, old_, new_, views, SnapsOf(exports), full, half);
    assert Sync(c, sys, new_, full) == Some(Steady(c, sys, views, SnapsOf(exports), full));
    var after := Steady(c, sys, views, SnapsOf(exports), full).sys;
    assert forall r :: 0 <= r < |c.shards| ==> RankHolds(c, after.snaps[r], r, new_);
  }

  lemma SteadySound(c: Config, sys: System, old_: Weights, new_: Weights, views: seq<seq<OwnPut>>,
                    snaps: seq<Snapshots>, full: seq<ValuesPiece>, half: set<string>)
    requires HoldChanges(old_, new_, views) && SlotsEncodable(PutSlots(Gathered(views)))
    requires NoneChangesToNaN(old_, new_) && IsExport(full, new_) && sys.rollout == old_
    ensures var r := Steady(c, sys, views, snaps, full);
            && r.sent.ok && r.verify == Due(c.verifyEvery, sys.steadySyncs + 1)
            && r.sys == System(true, sys.steadySyncs + 1, snaps, new_)
            && (SweepBad(old_, half, r.sent.messages) == 0 <==> (r.verify ==> NaNOnlyIn(new_, half)))
  {
    var verify := Due(c.verifyEvery, sys.steadySyncs + 1);
    SoundLoopEnds(old_, new_, views, c.batchGather, c.bucketSize);
    SteadyIs(c, sys, RoundSlots(views, c.batchGather), snaps, full, verify);
    SoundStep(old_, new_, half, full, views, c.batchGather, c.bucketSize, verify);
  }

  /** A steady synchronisation whose loop ends. */
  lemma SteadyIs(c: Config, sys: System, slots: seq<FlushPiece>, snaps: seq<Snapshots>, full: seq<ValuesPiece>,
                 verify: bool)
    requires LoopEnds(slots, c.bucketSize) && verify == Due(c.verifyEvery, sys.steadySyncs + 1)
    ensures var sent := SyncSent(slots, full, c.bucketSize, verify);
            SteadyOf(c, sys, slots, snaps, full)
            == Synced(System(true, sys.steadySyncs + 1, snaps, ApplyMessages(sys.rollout, sent.messages)), sent, verify)
  {
  }

  lemma SoundLoopEnds(old_: Weights, new_: Weights, views: seq<seq<OwnPut>>, batchGather: int, cap: int)
    requires HoldChanges(old_, new_, views) && SlotsEncodable(PutSlots(Gathered(views)))
    ensures LoopEnds(RoundSlots(views, batchGather), cap)
  {
    PartsAreDelta(old_, new_, views);
    DeltaFits(old_, new_, PutSlots(Gathered(views)));
    RoundsWellFormed(views, batchGather);
    EncodableLoopEnds(RoundSlots(views, batchGather), cap);
  }

  // ---------- whole runs ----------

  /** The trainer's weights at each synchronisation, exported in full, and a rollout with
      the same parameters. */
  predicate SoundRun(c: Config, rollout: Weights, trainers: seq<Weights>, fulls: seq<seq<ValuesPiece>>) {
    && Sharding(c.params, c.shards) && DistinctSlots(c.params) && |fulls| == |trainers|
    && (forall k :: 0 <= k < |trainers| ==> Describe(c.params, trainers[k]) && IsExport(fulls[k], trainers[k]))
    && (forall k :: 0 < k < |trainers| ==> SoundChange(c, trainers[k - 1], trainers[k]))
    && (trainers != [] ==> SameSizes(rollout, trainers[0]))
  }

  predicate Fresh(c: Config, sys: System) {
    !sys.seeded && sys.steadySyncs == 0 && |sys.snaps| == |c.shards|
  }

  /** The system after k synchronisations, if no exporter failed. */
  function RunTo(c: Config, start: System, trainers: seq<Weights>, fulls: seq<seq<ValuesPiece>>, k: nat): Option<System>
    requires k <= |trainers| == |fulls|
    decreases k, 0
  {
    if k == 0 then Some(start) else
      var r := SyncAt(c, start, trainers, fulls, k - 1);
      if r.None? then None else Some(r.value.sys)
  }

  /** Synchronisation number k, from 0. */
  function SyncAt(c: Config, start: System, trainers: seq<Weights>, fulls: seq<seq<ValuesPiece>>,
                  k: nat): Option<Synced>
    requires k < |trainers| == |fulls|
    decreases k, 1
  {
    var sys := RunTo(c, start, trainers, fulls, k);
    if sys.None? || !Sized(c, sys.value.snaps, trainers[k]) then None else Sync(c, sys.value, trainers[k], fulls[k])
  }

  /** How a sound synchronisation ends: nothing fails, the rollout has the trainer's
      weights, and it ended with a sweep if and only if it was a steady one whose number
      verify_every divides; no mismatch was counted if and only if there was no sweep or no
      parameter outside the two-byte floats held a NaN. */
  predicate SyncedWell(c: Config, before: Weights, r: Option<Synced>, trainer: Weights, half: set<string>, k: nat) {
    && r.Some? && r.value.sent.ok && InSync(c, r.value.sys, trainer, if k == 0 then 0 else k)
    && (r.value.verify <==> k > 0 && c.verifyEvery > 0 && k % c.verifyEvery == 0)
    && (SweepBad(before, half, r.value.sent.messages) == 0 <==> (r.value.verify ==> NaNOnlyIn(trainer, half)))
  }

  /** From fresh engines and any rollout weights, over the seed and any number of steady
      synchronisations: every one ends well. */
  lemma {:induction false} RunTracksTrainer(
      c: Config, start: System, trainers: seq<Weights>, fulls: seq<seq<ValuesPiece>>, half: set<string>, k: nat)
    requires SoundRun(c, start.rollout, trainers, fulls) && Fresh(c, start) && k < |trainers|
    ensures SyncedWell(c, if k == 0 then start.rollout else trainers[k - 1], SyncAt(c, start, trainers, fulls, k),
                       trainers[k], half, k)
  {
    if k == 0 {
      SeedInSync(c, start, trainers[0], fulls[0]);
    } else {
      RunTracksTrainer(c, start, trainers, fulls, half, k - 1);
      var sys := RunTo(c, start, trainers, fulls, k).value;
      SteadyInSync(c, sys, trainers[k - 1], trainers[k], fulls[k], half, k - 1);
    }
  }

  /** The system of an engine. */
  ghost predicate IsSystem(engine: Engine, sys: System)
    reads engine
  {
    engine.Valid() && engine.shardSeeded == sys.seeded && engine.steadySyncs == sys.steadySyncs
  }

  predicate Configured(engine: Engine, c: Config) {
    engine.bucketSize == c.bucketSize && engine.batchGather == c.batchGather && engine.verifyEvery == c.verifyEvery
  }

  /** The call of send_weights goes through. */
  predicate Ready(c: Config, sys: System, trainer: Weights, full: seq<ValuesPiece>) {
    && Sized(c, sys.snaps, trainer)
    && Sync(c, sys, trainer, full).Some? && Sync(c, sys, trainer, full).value.sent.ok
    && (sys.seeded ==> PutsWellFormed(PutsOf(Exports(c, sys.snaps, trainer))))
  }

  predicate PutsWellFormed(views: seq<seq<OwnPut>>) {
    Lockstep(views) && AllWellFormed(PutSlots(Gathered(views)))
  }

  /** One call of send_weights, with the exporters around it. */
  method SyncOnce(c: Config, engine: Engine, sys: System, trainer: Weights, full: seq<ValuesPiece>)
    returns (after: System)
    requires IsSystem(engine, sys) && Configured(engine, c) && Ready(c, sys, trainer, full)
    modifies engine
    ensures after == Sync(c, sys, trainer, full).value.sys && IsSystem(engine, after)
  {
    if !engine.shardSeeded {
      after := SeedOnce(c, engine, sys, trainer, full);
    } else {
      after := SteadyOnce(c, engine, sys, trainer, full);
    }
  }

  method SeedOnce(c: Config, engine: Engine, sys: System, trainer: Weights, full: seq<ValuesPiece>)
    returns (after: System)
    requires IsSystem(engine, sys) && Configured(engine, c) && Ready(c, sys, trainer, full) && !sys.seeded
    modifies engine
    ensures after == Sync(c, sys, trainer, full).value.sys && IsSystem(engine, after)
  {
    var sent := engine.SendWeights(full, [[]]);
    after := System(true, sys.steadySyncs, PrimedSnaps(c, sys.snaps, trainer),
                    ApplyMessages(sys.rollout, sent.messages));
  }

  method SteadyOnce(c: Config, engine: Engine, sys: System, trainer: Weights, full: seq<ValuesPiece>)
    returns (after: System)
    requires IsSystem(engine, sys) && Configured(engine, c) && Ready(c, sys, trainer, full) && sys.seeded
    modifies engine
    ensures after == Sync(c, sys, trainer, full).value.sys && IsSystem(engine, after)
  {
    var exports := Exports(c, sys.snaps, trainer);
    after := SendSteady(c, engine, sys, PutsOf(exports), SnapsOf(exports), full);
  }

  method SendSteady(c: Config, engine: Engine, sys: System, views: seq<seq<OwnPut>>, snaps: seq<Snapshots>,
                    full: seq<ValuesPiece>)
    returns (after: System)
    requires IsSystem(engine, sys) && Configured(engine, c) && PutsWellFormed(views) && sys.seeded
    modifies engine
    ensures after == Steady(c, sys, views, snaps, full).sys && IsSystem(engine, after)
  {
    var sent := engine.SendWeights(full, views);
    var counted := sys.steadySyncs + Counted(RoundSlots(views, c.batchGather), c.bucketSize);
    after := System(true, counted, snaps, ApplyMessages(sys.rollout, sent.messages));
  }

  /** The system after k synchronisations. */
  predicate IsAfter(c: Config, start: System, trainers: seq<Weights>, fulls: seq<seq<ValuesPiece>>, k: nat,
                    sys: System) {
    k <= |trainers| == |fulls| && RunTo(c, start, trainers, fulls, k) == Some(sys)
  }

  /** A sound run is ready at every synchronisation. */
  lemma RunReady(c: Config, start: System, trainers: seq<Weights>, fulls: seq<seq<ValuesPiece>>, sys: System,
                 half: set<string>, k: nat)
    requires SoundRun(c, start.rollout, trainers, fulls) && Fresh(c, start) && k < |trainers|
    requires IsAfter(c, start, trainers, fulls, k, sys)
    ensures Ready(c, sys, trainers[k], fulls[k])
    ensures var after := Sync(c, sys, trainers[k], fulls[k]).value.sys;
            IsAfter(c, start, trainers, fulls, k + 1, after) && after.rollout == trainers[k]
  {
    RunTracksTrainer(c, start, trainers, fulls, half, k);
    if k > 0 {
      RunTracksTrainer(c, start, trainers, fulls, half, k - 1);
      SteadyPutsWellFormed(c, sys, trainers[k - 1], trainers[k], k - 1);
    }
  }

  lemma SteadyPutsWellFormed(c: Config, sys: System, old_: Weights, new_: Weights, n: nat)
    requires InSync(c, sys, old_, n) && DistinctSlots(c.params) && Describe(c.params, new_)
    ensures PutsWellFormed(PutsOf(Exports(c, sys.snaps, new_)))
  {
    ExportsAre(c, sys, old_, new_, n);
    ExportsHoldChanges(c.params, c.shards, old_, new_);
    var views := ExportOf(c.params, c.shards, old_, new_);
    PartsAreDelta(old_, new_, views);
    DeltaFits(old_, new_, PutSlots(Gathered(views)));
  }

  /** A run of the engine itself: one call of send_weights for each of the trainer's
      states, whose messages the rollout applies. */
  method RunEngine(c: Config, engine: Engine, trainers: seq<Weights>, fulls: seq<seq<ValuesPiece>>, start: System)
    returns (rollouts: seq<Weights>)
    requires SoundRun(c, start.rollout, trainers, fulls) && Fresh(c, start)
    requires IsSystem(engine, start) && Configured(engine, c)
    modifies engine
    ensures rollouts == trainers
  {
    rollouts := [];
    var sys := start;
    for k := 0 to |trainers|
      invariant rollouts == trainers[..k]
      invariant IsAfter(c, start, trainers, fulls, k, sys) && IsSystem(engine, sys)
    {
      RunReady(c, start, trainers, fulls, sys, {}, k);
      sys := SyncOnce(c, engine, sys, trainers[k], fulls[k]);
      rollouts := rollouts + [sys.rollout];
      assert trainers[..k + 1] == trainers[..k] + [trainers[k]];
    }
    assert trainers[..|trainers|] == trainers;
  }
}
