/** What every rank puts for a steady synchronisation: the byte difference of its shards
    with their snapshots, in the coordinates of the whole parameter
    (verl/workers/engine/utils.py, hf_delta_export, prime_delta_snapshots;
    verl/checkpoint_engine/delta_sync/sparse_gather.py, shard_delta_indices). */
module ShardExports {
  import opened DeltaGather
  import opened DeltaParts
  import opened DeltaWire
  import opened GatherFlush
  import opened GatherQueues
  import opened ShardPlacements
  import opened SparseGather
  import opened ValueTypes
  import opened WeightChunks
  import opened WeightDeltas
  import opened Wrappers

  /** A parameter that is its own single slot. */
  datatype Param = Param(slot: Slot, vtype: ValueType, group: Option<Pg>)

  /** What one rank has of a parameter; a replica of a peer's shard contributes nothing. */
  datatype Shard = Shard(place: Place, contributes: bool)

  // ---------- the difference with the snapshot ----------

  /** The positions below n whose bits differ. */
  function Changed(local: seq<Float>, snap: seq<Float>, n: nat): seq<nat>
    requires n <= |local| == |snap|
  {
    if n == 0 then [] else Changed(local, snap, n - 1) + if local[n - 1] != snap[n - 1] then [n - 1] else []
  }

  function Picked(local: seq<Float>, idx: seq<nat>): (r: seq<Float>)
    requires forall k :: 0 <= k < |idx| ==> idx[k] < |local|
    ensures |r| == |idx|
  {
    seq(|idx|, k requires 0 <= k < |idx| => local[idx[k]])
  }

  lemma {:induction false} ChangedAre(local: seq<Float>, snap: seq<Float>, n: nat)
    requires n <= |local| == |snap|
    ensures forall k :: 0 <= k < |Changed(local, snap, n)| ==>
              var x := Changed(local, snap, n)[k]; x < n && local[x] != snap[x]
    ensures forall x :: 0 <= x < n && local[x] != snap[x] ==> x in Changed(local, snap, n)
    ensures Distinct(Changed(local, snap, n))
  {
    if n > 0 {
      ChangedAre(local, snap, n - 1);
    }
  }

  predicate ShardFits(s: Shard, p: Param, local: seq<Float>, snap: seq<Float>) {
    PlaceFits(s.place, p.slot.shape) && |local| == |snap| == SizeOf(s.place)
  }

  function LocalIdx(s: Shard, local: seq<Float>, snap: seq<Float>): (r: seq<nat>)
    requires |local| == |snap|
    ensures forall k :: 0 <= k < |r| ==> r[k] < |local|
  {
    ChangedAre(local, snap, |local|);
    if s.contributes then Changed(local, snap, |local|) else []
  }

  /** The entry of one parameter. */
  function PutOf(p: Param, s: Shard, local: seq<Float>, snap: seq<Float>): OwnPut
    requires ShardFits(s, p, local, snap)
  {
    var lidx := LocalIdx(s, local, snap);
    Put(p.group, Own([p.slot], p.vtype, Part([|lidx|], AllAt(s.place, p.slot.shape, lidx), Picked(local, lidx))))
  }

  // ---------- the snapshots of one rank ----------

  /** One item of the exporter: the parameter, this rank's shard and its present values. */
  datatype Item = Item(param: Param, shard: Shard, local: seq<Float>)

  type Snapshots = map<string, seq<Float>>

  /** The snapshots after the first i items were primed. */
  function Primed(items: seq<Item>, snaps: Snapshots, i: nat): Snapshots
    requires i <= |items|
  {
    if i == 0 then snaps else Primed(items, snaps, i - 1)[items[i - 1].param.slot.name := items[i - 1].local]
  }

  predicate Snapped(item: Item, snaps: Snapshots) {
    item.param.slot.name in snaps && |snaps[item.param.slot.name]| == |item.local|
  }

  predicate ItemFits(item: Item) {
    PlaceFits(item.shard.place, item.param.slot.shape) && |item.local| == SizeOf(item.shard.place)
  }

  predicate ItemsFit(items: seq<Item>) {
    forall i :: 0 <= i < |items| ==> ItemFits(items[i])
  }

  /** What was yielded and the snapshots, until the assertion fires for an item. */
  datatype Exported = Exported(puts: seq<OwnPut>, snaps: Snapshots, ok: bool)

  function ExportNext(e: Exported, item: Item): Exported
    requires ItemFits(item)
  {
    if !e.ok || !Snapped(item, e.snaps) then e.(ok := false)
    else Exported(e.puts + [PutOf(item.param, item.shard, item.local, e.snaps[item.param.slot.name])],
                  e.snaps[item.param.slot.name := item.local], true)
  }

  function ExportUpTo(items: seq<Item>, snaps: Snapshots, i: nat): Exported
    requires i <= |items| && ItemsFit(items)
  {
    if i == 0 then Exported([], snaps, true) else
      assert ItemFits(items[i - 1]);
      ExportNext(ExportUpTo(items, snaps, i - 1), items[i - 1])
  }

  lemma {:induction false} FailureStays(items: seq<Item>, snaps: Snapshots, i: nat, n: nat)
    requires i <= n <= |items| && ItemsFit(items) && !ExportUpTo(items, snaps, i).ok
    ensures ExportUpTo(items, snaps, n) == ExportUpTo(items, snaps, i)
  {
    if i < n {
      FailureStays(items, snaps, i, n - 1);
      assert ItemFits(items[n - 1]);
    }
  }

  predicate AllSnapped(items: seq<Item>, snaps: Snapshots, i: nat)
    requires i <= |items|
  {
    forall k :: 0 <= k < i ==> Snapped(items[k], snaps)
  }

  /** The export succeeds if and only if every shard had a snapshot of its size at the
      start; it keeps the names and sizes of the snapshots, and puts one entry for each
      item before the first that fails. */
  lemma {:induction false} ExportOkIff(items: seq<Item>, snaps: Snapshots, i: nat)
    requires i <= |items| && ItemsFit(items)
    ensures var e := ExportUpTo(items, snaps, i);
            && (e.ok <==> AllSnapped(items, snaps, i))
            && |e.puts| <= i && AllSnapped(items, snaps, |e.puts|)
            && (e.ok ==> |e.puts| == i) && (!e.ok ==> !Snapped(items[|e.puts|], snaps))
            && e.snaps.Keys == snaps.Keys && forall n :: n in snaps ==> |e.snaps[n]| == |snaps[n]|
  {
    if i > 0 {
      ExportOkIff(items, snaps, i - 1);
      assert ItemFits(items[i - 1]);
    }
  }

  class Exporter {
    var snaps: Snapshots

    constructor ()
      ensures snaps == map[]
    {
      snaps := map[];
    }

    /** prime_delta_snapshots */
    method Prime(items: seq<Item>)
      modifies this
      ensures snaps == Primed(items, old(snaps), |items|)
    {
      for i := 0 to |items|
        invariant snaps == Primed(items, old(snaps), i)
      {
        snaps := snaps[items[i].param.slot.name := items[i].local];
      }
    }

    /** hf_delta_export: not ok when the assertion fires for an item; every snapshot up to
        there was refreshed. */
    method Export(items: seq<Item>) returns (puts: seq<OwnPut>, ok: bool)
      requires ItemsFit(items)
      modifies this
      ensures Exported(puts, snaps, ok) == ExportUpTo(items, old(snaps), |items|)
    {
      puts := [];
      for i := 0 to |items|
        invariant Exported(puts, snaps, true) == ExportUpTo(items, old(snaps), i)
      {
        assert ItemFits(items[i]);
        var put := ExportItem(items[i]);
        if put.None? {
          FailureStays(items, old(snaps), i + 1, |items|);
          return puts, false;
        }
        puts := puts + [put.value];
      }
      ok := true;
    }

    method ExportItem(item: Item) returns (put: Option<OwnPut>)
      requires ItemFits(item)
      modifies this
      ensures put.Some? <==> Snapped(item, old(snaps))
      ensures put.None? ==> snaps == old(snaps)
      ensures put.Some? ==>
                && snaps == old(snaps)[item.param.slot.name := item.local]
                && ShardFits(item.shard, item.param, item.local, old(snaps)[item.param.slot.name])
                && put.value == PutOf(item.param, item.shard, item.local, old(snaps)[item.param.slot.name])
    {
      var name := item.param.slot.name;
      if name !in snaps || |snaps[name]| != |item.local| {
        return None;
      }
      var lidx: seq<nat>, lval: seq<Float> := [], [];
      if item.shard.contributes {
        lidx := LocalIdx(item.shard, item.local, snaps[name]);
        lval := Picked(item.local, lidx);
      }
      var gidx := Translate(lidx, item.shard.place, item.param.slot.shape);
      snaps := snaps[name := item.local];
      return Some(Put(item.param.group, Own([item.param.slot], item.param.vtype, Part([|gidx|], gidx, lval))));
    }
  }

  // ---------- the shards of all ranks ----------

  /** What a rank has of the whole parameter. */
  function LocalOf(s: Shard, shape: seq<nat>, w: seq<Float>): (r: seq<Float>)
    requires PlaceFits(s.place, shape) && |w| == Numel(shape)
    ensures |r| == SizeOf(s.place)
  {
    seq(SizeOf(s.place), x requires 0 <= x < SizeOf(s.place) => AtIn(s.place, shape, x); w[At(s.place, shape, x)])
  }

  predicate SharesOwn(s: Shard, shape: seq<nat>, y: nat) {
    s.contributes && Owns(s.place, shape, y)
  }

  /** The contributing shards of the group's members cut the parameter into pieces: every
      element is in exactly one of them. */
  predicate Partition(p: Param, shards: seq<Shard>) {
    && (forall m :: 0 <= m < |Members(p.group)| ==> Members(p.group)[m] < |shards|)
    && (forall y :: 0 <= y < Numel(p.slot.shape) ==> OwnedOnce(p, shards, y))
  }

  predicate OwnedOnce(p: Param, shards: seq<Shard>, y: nat)
    requires forall m :: 0 <= m < |Members(p.group)| ==> Members(p.group)[m] < |shards|
  {
    var members := Members(p.group);
    && (exists m :: 0 <= m < |members| && SharesOwn(shards[members[m]], p.slot.shape, y))
    && (forall m, l :: 0 <= m < |members| && 0 <= l < |members| && m != l
          ==> !(SharesOwn(shards[members[m]], p.slot.shape, y) && SharesOwn(shards[members[l]], p.slot.shape, y)))
  }

  /** shards[r][i] is what rank r has of parameter i. */
  predicate Sharding(params: seq<Param>, shards: seq<seq<Shard>>) {
    && |shards| > 0 && (forall r :: 0 <= r < |shards| ==> |shards[r]| == |params|)
    && (forall r, i :: 0 <= r < |shards| && 0 <= i < |params| ==> PlaceFits(shards[r][i].place, params[i].slot.shape))
    && (forall i :: 0 <= i < |params| ==> GroupOk(params[i].group, |shards|) && Partition(params[i], Across(shards, i)))
  }

  function Across(shards: seq<seq<Shard>>, i: nat): (r: seq<Shard>)
    requires forall r :: 0 <= r < |shards| ==> i < |shards[r]|
    ensures |r| == |shards| && forall q :: 0 <= q < |shards| ==> r[q] == shards[q][i]
  {
    seq(|shards|, r requires 0 <= r < |shards| => shards[r][i])
  }

  predicate HasWeight(p: Param, ws: Weights) {
    p.slot.name in ws && |ws[p.slot.name]| == Numel(p.slot.shape)
  }

  predicate HaveWeights(params: seq<Param>, ws: Weights) {
    forall i :: 0 <= i < |params| ==> HasWeight(params[i], ws)
  }

  /** The parameters have these weights, and there are no others. */
  predicate Describe(params: seq<Param>, ws: Weights) {
    HaveWeights(params, ws) && forall n :: n in ws ==> exists i :: 0 <= i < |params| && params[i].slot.name == n
  }

  /** What all ranks put when the trainer goes from one state to the next. */
  function ExportOf(params: seq<Param>, shards: seq<seq<Shard>>, old_: Weights, new_: Weights): seq<seq<OwnPut>>
    requires Sharding(params, shards) && Describe(params, old_) && Describe(params, new_)
  {
    seq(|shards|, r requires 0 <= r < |shards| => RankExport(params, shards, old_, new_, r))
  }

  function RankExport(params: seq<Param>, shards: seq<seq<Shard>>, old_: Weights, new_: Weights, r: nat): seq<OwnPut>
    requires Sharding(params, shards) && Describe(params, old_) && Describe(params, new_) && r < |shards|
  {
    seq(|params|, i requires 0 <= i < |params| => ShardEntry(params[i], shards[r][i], old_, new_))
  }

  function ShardEntry(p: Param, s: Shard, old_: Weights, new_: Weights): OwnPut
    requires PlaceFits(s.place, p.slot.shape) && HasWeight(p, old_) && HasWeight(p, new_)
  {
    PutOf(p, s, LocalOf(s, p.slot.shape, new_[p.slot.name]), LocalOf(s, p.slot.shape, old_[p.slot.name]))
  }

  // ---------- the run of one rank's exporter ----------

  predicate DistinctSlots(params: seq<Param>) {
    forall i, j :: 0 <= i < j < |params| ==> params[i].slot.name != params[j].slot.name
  }

  predicate RankFits(params: seq<Param>, own: seq<Shard>, ws: Weights) {
    |own| == |params| && HaveWeights(params, ws) && forall i :: 0 <= i < |params| ==>
        PlaceFits(own[i].place, params[i].slot.shape)
  }

  function ItemsOf(params: seq<Param>, own: seq<Shard>, ws: Weights): (r: seq<Item>)
    requires RankFits(params, own, ws)
    ensures |r| == |params| && ItemsFit(r)
  {
    seq(|params|, i requires 0 <= i < |params| =>
      assert HasWeight(params[i], ws);
      Item(params[i], own[i], LocalOf(own[i], params[i].slot.shape, ws[params[i].slot.name])))
  }

  /** The snapshots of parameters lo to hi are this rank's shards of these weights. */
  predicate SnapsHold(snaps: Snapshots, params: seq<Param>, own: seq<Shard>, ws: Weights, lo: nat, hi: nat)
    requires RankFits(params, own, ws) && hi <= |params|
  {
    forall i :: lo <= i < hi ==> SnapHolds(snaps, params[i], own[i], ws)
  }

  predicate SnapHolds(snaps: Snapshots, p: Param, s: Shard, ws: Weights)
    requires PlaceFits(s.place, p.slot.shape) && HasWeight(p, ws)
  {
    p.slot.name in snaps && snaps[p.slot.name] == LocalOf(s, p.slot.shape, ws[p.slot.name])
  }

  lemma SnapsUpdate(snaps: Snapshots, params: seq<Param>, own: seq<Shard>, ws: Weights, lo: nat, hi: nat, name: string,
                    value: seq<Float>)
    requires RankFits(params, own, ws) && hi <= |params| && SnapsHold(snaps, params, own, ws, lo, hi)
    requires forall i :: lo <= i < hi ==> params[i].slot.name != name
    ensures SnapsHold(snaps[name := value], params, own, ws, lo, hi)
  {
    assert forall i :: lo <= i < hi ==> SnapHolds(snaps, params[i], own[i], ws);
  }

  /** Refreshing the next snapshot. */
  lemma SnapsExtend(snaps: Snapshots, params: seq<Param>, own: seq<Shard>, ws: Weights, m: nat, item: Item)
    requires RankFits(params, own, ws) && DistinctSlots(params) && m < |params|
    requires SnapsHold(snaps, params, own, ws, 0, m)
    requires item == ItemsOf(params, own, ws)[m]
    ensures SnapsHold(snaps[item.param.slot.name := item.local], params, own, ws, 0, m + 1)
  {
    SnapsUpdate(snaps, params, own, ws, 0, m, item.param.slot.name, item.local);
    assert SnapHolds(snaps[item.param.slot.name := item.local], params[m], own[m], ws);
  }

  /** Primed with the weights of the seed, the snapshots are this rank's shards of them. */
  lemma {:induction false} PrimedHold(params: seq<Param>, own: seq<Shard>, ws: Weights, items: seq<Item>,
                                      snaps: Snapshots, n: nat)
    requires RankFits(params, own, ws) && DistinctSlots(params) && items == ItemsOf(params, own, ws) && n <= |params|
    ensures SnapsHold(Primed(items, snaps, n), params, own, ws, 0, n)
  {
    if n > 0 {
      PrimedHold(params, own, ws, items, snaps, n - 1);
      PrimedNext(params, own, ws, items, snaps, Primed(items, snaps, n - 1), n - 1);
    }
  }

  lemma PrimedNext(params: seq<Param>, own: seq<Shard>, ws: Weights, items: seq<Item>, snaps: Snapshots,
                   before: Snapshots, m: nat)
    requires RankFits(params, own, ws) && DistinctSlots(params) && items == ItemsOf(params, own, ws) && m < |params|
    requires before == Primed(items, snaps, m) && SnapsHold(before, params, own, ws, 0, m)
    ensures SnapsHold(Primed(items, snaps, m + 1), params, own, ws, 0, m + 1)
  {
    SnapsExtend(before, params, own, ws, m, items[m]);
  }

  /** The first n entries are this rank's parts of the change, and their snapshots are new. */
  predicate Yields(e: Exported, params: seq<Param>, own: seq<Shard>, old_: Weights, new_: Weights, n: nat)
    requires RankFits(params, own, old_) && RankFits(params, own, new_) && n <= |params|
  {
    && e.ok && |e.puts| == n && (forall i :: 0 <= i < n ==> e.puts[i] == ShardEntry(params[i], own[i], old_, new_))
    && SnapsHold(e.snaps, params, own, new_, 0, n) && SnapsHold(e.snaps, params, own, old_, n, |params|)
  }

  lemma YieldsNext(e: Exported, params: seq<Param>, own: seq<Shard>, old_: Weights, new_: Weights, m: nat, item: Item)
    requires RankFits(params, own, old_) && RankFits(params, own, new_) && DistinctSlots(params) && m < |params|
    requires Yields(e, params, own, old_, new_, m) && item == ItemsOf(params, own, new_)[m]
    ensures Snapped(item, e.snaps) && ItemFits(item)
    ensures Yields(ExportNext(e, item), params, own, old_, new_, m + 1)
  {
    assert SnapHolds(e.snaps, params[m], own[m], old_);
    SnapsExtend(e.snaps, params, own, new_, m, item);
    SnapsUpdate(e.snaps, params, own, old_, m + 1, |params|, item.param.slot.name, item.local);
  }

  /** With the snapshots of the old state, an export of the new one never fails, yields
      this rank's part of the change, and leaves the snapshots of the new state. */
  lemma {:induction false} ExportYields(params: seq<Param>, own: seq<Shard>, old_: Weights, new_: Weights,
                                        snaps: Snapshots, n: nat)
    requires RankFits(params, own, old_) && RankFits(params, own, new_) && DistinctSlots(params) && n <= |params|
    requires SnapsHold(snaps, params, own, old_, 0, |params|)
    ensures Yields(ExportUpTo(ItemsOf(params, own, new_), snaps, n), params, own, old_, new_, n)
  {
    if n > 0 {
      ExportYields(params, own, old_, new_, snaps, n - 1);
      YieldsNext(ExportUpTo(ItemsOf(params, own, new_), snaps, n - 1), params, own, old_, new_, n - 1,
                 ItemsOf(params, own, new_)[n - 1]);
    }
  }

  /** The entries that an exporter yields are what its rank puts. */
  lemma YieldsAre(params: seq<Param>, shards: seq<seq<Shard>>, old_: Weights, new_: Weights, r: nat, e: Exported)
    requires Sharding(params, shards) && Describe(params, old_) && Describe(params, new_) && r < |shards|
    requires RankFits(params, shards[r], old_) && RankFits(params, shards[r], new_)
    requires Yields(e, params, shards[r], old_, new_, |params|)
    ensures e.puts == RankExport(params, shards, old_, new_, r)
  {
    var own := RankExport(params, shards, old_, new_, r);
    forall i | 0 <= i < |params| ensures e.puts[i] == own[i] {
    }
  }

  // ---------- one shard ----------

  lemma SinglePart(p: Part, s: Slot)
    requires |p.idx| == |p.val| && p.counts == [|p.idx|]
    ensures PartFits(p, [s]) && OwnIdx(p, [s], 0) == p.idx && OwnVal(p, [s], 0) == p.val
  {
    assert Offset(p.counts, 1) == Offset(p.counts, 0) + p.counts[0];
  }

  lemma AllAtDistinct(p: Place, shape: seq<nat>, idx: seq<nat>)
    requires PlaceFits(p, shape) && Distinct(idx) && forall k :: 0 <= k < |idx| ==> idx[k] < SizeOf(p)
    ensures Distinct(AllAt(p, shape, idx))
  {
    forall k, l | 0 <= k < l < |idx| ensures At(p, shape, idx[k]) != At(p, shape, idx[l]) {
      if At(p, shape, idx[k]) == At(p, shape, idx[l]) {
        AtInjective(p, shape, idx[k], idx[l]);
      }
    }
  }

  predicate IsChanged(p: Param, old_: Weights, new_: Weights, x: nat)
    requires HasWeight(p, old_) && HasWeight(p, new_)
  {
    x < Numel(p.slot.shape) && old_[p.slot.name][x] != new_[p.slot.name][x]
  }

  /** The entry of a shard holds values of the new state, each element once, and only its own. */
  lemma ShardHolds(p: Param, s: Shard, old_: Weights, new_: Weights)
    requires PlaceFits(s.place, p.slot.shape) && HasWeight(p, old_) && HasWeight(p, new_)
    ensures var part := ShardEntry(p, s, old_, new_).entry.part;
            && PartFits(part, [p.slot]) && OwnHolds(new_, part, [p.slot], 0)
            && OwnIdx(part, [p.slot], 0) == part.idx
            && forall k :: 0 <= k < |part.idx| ==>
                SharesOwn(s, p.slot.shape, part.idx[k]) && IsChanged(p, old_, new_, part.idx[k])
  {
    var shape := p.slot.shape;
    var local, snap := LocalOf(s, shape, new_[p.slot.name]), LocalOf(s, shape, old_[p.slot.name]);
    var lidx := LocalIdx(s, local, snap);
    var part := ShardEntry(p, s, old_, new_).entry.part;
    SinglePart(part, p.slot);
    ChangedAre(local, snap, |local|);
    forall k | 0 <= k < |lidx|
      ensures part.idx[k] < Numel(shape) && new_[p.slot.name][part.idx[k]] == part.val[k]
      ensures SharesOwn(s, shape, part.idx[k]) && IsChanged(p, old_, new_, part.idx[k])
    {
      AtIn(s.place, shape, lidx[k]);
    }
    AllAtDistinct(s.place, shape, lidx);
  }

  /** A changed element of a contributing shard is in its entry. */
  lemma ShardShips(p: Param, s: Shard, old_: Weights, new_: Weights, y: nat)
    requires PlaceFits(s.place, p.slot.shape) && HasWeight(p, old_) && HasWeight(p, new_)
    requires y < Numel(p.slot.shape) && SharesOwn(s, p.slot.shape, y) && old_[p.slot.name][y] != new_[p.slot.name][y]
    ensures y in ShardEntry(p, s, old_, new_).entry.part.idx
  {
    var shape := p.slot.shape;
    var local, snap := LocalOf(s, shape, new_[p.slot.name]), LocalOf(s, shape, old_[p.slot.name]);
    var x := AtOnto(s.place, shape, y);
    ChangedAre(local, snap, |local|);
    assert local[x] != snap[x];
    var lidx := LocalIdx(s, local, snap);
    var k :| 0 <= k < |lidx| && lidx[k] == x;
    assert ShardEntry(p, s, old_, new_).entry.part.idx[k] == y;
  }

  // ---------- all ranks ----------

  lemma ExportSamePuts(params: seq<Param>, shards: seq<seq<Shard>>, old_: Weights, new_: Weights, r: nat)
    requires Sharding(params, shards) && Describe(params, old_) && Describe(params, new_) && r < |shards|
    ensures SamePuts(RankExport(params, shards, old_, new_, r), RankExport(params, shards, old_, new_, 0))
  {
    var own, first := RankExport(params, shards, old_, new_, r), RankExport(params, shards, old_, new_, 0);
    forall i | 0 <= i < |params| ensures SamePut(own[i], first[i]) {
      ShardHolds(params[i], shards[r][i], old_, new_);
    }
  }

  lemma ExportLockstep(params: seq<Param>, shards: seq<seq<Shard>>, old_: Weights, new_: Weights)
    requires Sharding(params, shards) && Describe(params, old_) && Describe(params, new_)
    ensures Lockstep(ExportOf(params, shards, old_, new_))
  {
    var views := ExportOf(params, shards, old_, new_);
    forall r | 0 <= r < |views| ensures SamePuts(views[r], views[0]) {
      ExportSamePuts(params, shards, old_, new_, r);
    }
  }

  /** The parts of the members come from these shards of the parameter. */
  predicate FromShards(parts: seq<Part>, p: Param, shards: seq<Shard>, old_: Weights, new_: Weights) {
    && Known(p, shards, old_, new_) && |parts| == |Members(p.group)|
    && forall m :: 0 <= m < |parts| ==> parts[m] == ShardEntry(p, shards[Members(p.group)[m]], old_, new_).entry.part
  }

  predicate Known(p: Param, shards: seq<Shard>, old_: Weights, new_: Weights) {
    && Partition(p, shards) && (forall r :: 0 <= r < |shards| ==> PlaceFits(shards[r].place, p.slot.shape))
    && HasWeight(p, old_) && HasWeight(p, new_)
  }

  lemma PartsAre(params: seq<Param>, shards: seq<seq<Shard>>, old_: Weights, new_: Weights, i: nat)
    requires Sharding(params, shards) && Describe(params, old_) && Describe(params, new_) && i < |params|
    requires Lockstep(ExportOf(params, shards, old_, new_))
    ensures var views := ExportOf(params, shards, old_, new_);
            && views[0][i].entry.slots == [params[i].slot]
            && FromShards(PartsAt(views, i), params[i], Across(shards, i), old_, new_)
  {
    assert GroupOk(params[i].group, |shards|);
  }

  lemma PartsHoldNew(parts: seq<Part>, p: Param, shards: seq<Shard>, old_: Weights, new_: Weights)
    requires FromShards(parts, p, shards, old_, new_)
    ensures EntryHolds(new_, parts, [p.slot])
  {
    var members := Members(p.group);
    forall m | 0 <= m < |parts| ensures OwnHolds(new_, parts[m], [p.slot], 0) {
      ShardHolds(p, shards[members[m]], old_, new_);
    }
    PartsApart(parts, p, shards, old_, new_);
    assert PartsHold(new_, parts, [p.slot], 0);
  }

  lemma PartsApart(parts: seq<Part>, p: Param, shards: seq<Shard>, old_: Weights, new_: Weights)
    requires FromShards(parts, p, shards, old_, new_)
    ensures forall m, l :: 0 <= m < |parts| && 0 <= l < |parts| && m != l ==> OwnApart(parts[m], parts[l], [p.slot], 0)
  {
    forall m, l | 0 <= m < |parts| && 0 <= l < |parts| && m != l ensures OwnApart(parts[m], parts[l], [p.slot], 0) {
      ShardsApart(p, shards, old_, new_, m, l);
    }
  }

  lemma ShardsApart(p: Param, shards: seq<Shard>, old_: Weights, new_: Weights, m: nat, l: nat)
    requires Known(p, shards, old_, new_) && m < |Members(p.group)| && l < |Members(p.group)| && m != l
    ensures var members := Members(p.group);
            OwnApart(ShardEntry(p, shards[members[m]], old_, new_).entry.part,
                     ShardEntry(p, shards[members[l]], old_, new_).entry.part, [p.slot], 0)
  {
    var members := Members(p.group);
    var a, b := ShardEntry(p, shards[members[m]], old_, new_).entry.part,
        ShardEntry(p, shards[members[l]], old_, new_).entry.part;
    ShardHolds(p, shards[members[m]], old_, new_);
    ShardHolds(p, shards[members[l]], old_, new_);
    forall k, j | 0 <= k < |a.idx| && 0 <= j < |b.idx| ensures a.idx[k] != b.idx[j] {
      assert OwnedOnce(p, shards, a.idx[k]);
    }
  }

  lemma PartsShip(parts: seq<Part>, p: Param, shards: seq<Shard>, old_: Weights, new_: Weights, y: nat)
    requires FromShards(parts, p, shards, old_, new_)
    requires y < Numel(p.slot.shape) && old_[p.slot.name][y] != new_[p.slot.name][y]
    ensures ShippedFor(parts, [p.slot], p.slot.name, y)
  {
    var members := Members(p.group);
    assert OwnedOnce(p, shards, y);
    var m :| 0 <= m < |members| && SharesOwn(shards[members[m]], p.slot.shape, y);
    ShardShips(p, shards[members[m]], old_, new_, y);
    ShardHolds(p, shards[members[m]], old_, new_);
    assert y in OwnIdx(parts[m], [p.slot], 0);
    assert ShippedBy(parts, [p.slot], 0, y);
  }

  /** The whole delta of a parameter that did not change is empty. */
  lemma WholeChanged(params: seq<Param>, shards: seq<seq<Shard>>, old_: Weights, new_: Weights, i: nat)
    requires Sharding(params, shards) && Describe(params, old_) && Describe(params, new_) && i < |params|
    requires Lockstep(ExportOf(params, shards, old_, new_))
    ensures var whole := WholeAt(ExportOf(params, shards, old_, new_), i);
            && |whole| == 1 && whole[0].shape == params[i].slot.shape
            && (whole[0].idx != [] ==> old_[params[i].slot.name] != new_[params[i].slot.name])
  {
    var views, p, own := ExportOf(params, shards, old_, new_), params[i], Across(shards, i);
    var parts, whole := PartsAt(views, i), WholeAt(views, i);
    PartsAre(params, shards, old_, new_, i);
    if whole[0].idx != [] {
      DeltaFrom(parts, [p.slot], 0, |parts|, whole[0].idx[0]);
      var m :| 0 <= m < |parts| && PartFits(parts[m], [p.slot]) && whole[0].idx[0] in OwnIdx(parts[m], [p.slot], 0);
      ShardHolds(p, own[Members(p.group)[m]], old_, new_);
    }
  }

  lemma ExportShips(params: seq<Param>, shards: seq<seq<Shard>>, old_: Weights, new_: Weights, n: string, y: nat)
    requires Sharding(params, shards) && Describe(params, old_) && Describe(params, new_)
    requires Lockstep(ExportOf(params, shards, old_, new_))
    requires n in old_ && n in new_ && y < |old_[n]| == |new_[n]| && old_[n][y] != new_[n][y]
    ensures Shipped(ExportOf(params, shards, old_, new_), n, y)
  {
    var i :| 0 <= i < |params| && params[i].slot.name == n;
    PartsAre(params, shards, old_, new_, i);
    PartsShip(PartsAt(ExportOf(params, shards, old_, new_), i), params[i], Across(shards, i), old_, new_, y);
  }

  /** When the contributing shards partition every parameter, what the ranks put is the
      change of the trainer's state, each changed element exactly once. */
  lemma ExportsHoldChanges(params: seq<Param>, shards: seq<seq<Shard>>, old_: Weights, new_: Weights)
    requires Sharding(params, shards) && Describe(params, old_) && Describe(params, new_)
    ensures HoldChanges(old_, new_, ExportOf(params, shards, old_, new_))
  {
    var views := ExportOf(params, shards, old_, new_);
    ExportLockstep(params, shards, old_, new_);
    SameNames(params, old_, new_);
    forall i | 0 <= i < |views[0]| ensures EntryHolds(new_, PartsAt(views, i), views[0][i].entry.slots) {
      PartsAre(params, shards, old_, new_, i);
      PartsHoldNew(PartsAt(views, i), params[i], Across(shards, i), old_, new_);
    }
    forall n, x | n in old_ && n in new_ && 0 <= x < |old_[n]| && x < |new_[n]| && old_[n][x] != new_[n][x]
      ensures Shipped(views, n, x)
    {
      ExportShips(params, shards, old_, new_, n, x);
    }
  }

  lemma SameNames(params: seq<Param>, old_: Weights, new_: Weights)
    requires Describe(params, old_) && Describe(params, new_)
    ensures SameSizes(old_, new_)
  {
    forall n ensures n in old_ <==> n in new_ {
    }
    forall n | n in old_ && n in new_ ensures |old_[n]| == |new_[n]| {
      var i :| 0 <= i < |params| && params[i].slot.name == n;
    }
  }
}
