/** From what every rank puts to the slots that rank 0 buckets
    (verl/checkpoint_engine/delta_checkpoint_engine.py, _GatherQueue, send_weights):
    every rank runs its own queue on its own parts, the rounds are collective, and
    rank 0 gets the whole delta of every slot. */
module DeltaGather {
  import opened DeltaBuckets
  import opened DeltaRounds
  import opened GatherFlush
  import opened GatherQueues
  import opened Sequences
  import opened ValueTypes
  import opened WeightDeltas
  import opened Wrappers

  /** What one rank puts for one parameter: the slots, the type of the values, and its
      own changes. */
  datatype Own = Own(slots: seq<Slot>, vtype: ValueType, part: Part)

  /** A gather group, with the ranks of rank 0's group in group order. */
  datatype Pg = Pg(id: nat, members: seq<nat>)

  type OwnPut = Put<Option<Pg>, Own>

  function BatchOf(batchGather: int): nat {
    if batchGather >= 1 then batchGather else 1
  }

  /** The given batch size, but at least one. */
  lemma BatchOfIs(batchGather: int, n: nat)
    ensures BatchOf(batchGather) <= n <==> 1 <= n && batchGather <= n
  {
  }

  /** The ranks whose parts make up the delta; without a group, rank 0 alone. */
  function Members(g: Option<Pg>): seq<nat> {
    if g.None? then [0] else g.value.members
  }

  // ---------- what the ranks put ----------

  predicate SamePut(p: OwnPut, q: OwnPut) {
    && p.group == q.group && p.entry.slots == q.entry.slots && p.entry.vtype == q.entry.vtype
    && PartFits(p.entry.part, p.entry.slots)
  }

  predicate SamePuts(own: seq<OwnPut>, first: seq<OwnPut>) {
    |own| == |first| && forall i :: 0 <= i < |own| ==> SamePut(own[i], first[i])
  }

  predicate GroupOk(g: Option<Pg>, world: nat) {
    Members(g) != [] && Members(g)[0] == 0 && forall m :: 0 <= m < |Members(g)| ==> Members(g)[m] < world
  }

  /** Rank by rank, the parameters come in the same order, with the same slots and the
      same types and groups; only the parts differ. */
  predicate Lockstep(views: seq<seq<OwnPut>>) {
    && |views| > 0 && (forall r :: 0 <= r < |views| ==> SamePuts(views[r], views[0]))
    && forall i :: 0 <= i < |views[0]| ==> GroupOk(views[0][i].group, |views|)
  }

  /** The parts of the members for the i-th parameter. */
  function PartsAt(views: seq<seq<OwnPut>>, i: nat): (r: seq<Part>)
    requires Lockstep(views) && i < |views[0]|
    ensures r != [] && EntryFits(r, views[0][i].entry.slots)
  {
    var members := Members(views[0][i].group);
    assert GroupOk(views[0][i].group, |views|);
    assert forall r :: 0 <= r < |views| ==> SamePuts(views[r], views[0]) && SamePut(views[r][i], views[0][i]);
    seq(|members|, m requires 0 <= m < |members| =>
        assert SamePuts(views[members[m]], views[0]); views[members[m]][i].entry.part)
  }

  function WholeAt(views: seq<seq<OwnPut>>, i: nat): Entry
    requires Lockstep(views) && i < |views[0]|
  {
    WholeDelta(views[0][i].entry.slots, views[0][i].entry.vtype, PartsAt(views, i))
  }

  /** Without groups the ranks are in step whenever they put the same slots, and rank 0's
      own part is the whole delta. */
  lemma NoGroupIsRankZero(views: seq<seq<OwnPut>>, i: nat)
    requires |views| > 0 && forall r :: 0 <= r < |views| ==> SamePuts(views[r], views[0])
    requires i < |views[0]| && forall k :: 0 <= k < |views[0]| ==> views[0][k].group.None?
    ensures Lockstep(views) && PartsAt(views, i) == [views[0][i].entry.part]
  {
  }

  /** The whole deltas of all parameters, in the order in which the backend yields them. */
  function Gathered(views: seq<seq<OwnPut>>): seq<SlotPut<Option<Pg>>>
    requires Lockstep(views)
  {
    seq(|views[0]|, i requires 0 <= i < |views[0]| => Put(views[0][i].group, WholeAt(views, i)))
  }

  // ---------- the rounds ----------

  /** The puts, with the number of the parameter for an entry. */
  function Numbered(views: seq<seq<OwnPut>>): seq<Put<Option<Pg>, nat>>
    requires |views| > 0
  {
    seq(|views[0]|, i requires 0 <= i < |views[0]| => Put(views[0][i].group, i))
  }

  predicate IsOwn(views: seq<seq<OwnPut>>, r: nat, i: nat, own: Own)
    requires r < |views|
  {
    i < |views[r]| && own == views[r][i].entry
  }

  predicate IsWhole(views: seq<seq<OwnPut>>, i: nat, entry: Entry)
    requires Lockstep(views)
  {
    i < |views[0]| && entry == WholeAt(views, i)
  }

  /** The queue that one rank runs. */
  method RunQueue(own: seq<OwnPut>, batchGather: int) returns (rounds: seq<Round<Option<Pg>, Own>>)
    ensures rounds == AllRounds(own, BatchOf(batchGather))
  {
    var gq := new GatherQueue<Option<Pg>, Own>(batchGather);
    for i := 0 to |own|
      invariant fresh(gq) && gq.Valid() && gq.puts == own[..i] && gq.batchK == BatchOf(batchGather)
    {
      gq.PutEntry(own[i].group, own[i].entry);
    }
    assert own[..|own|] == own;
    gq.FlushAll();
    rounds := gq.rounds;
  }

  // ---------- one round on all ranks ----------

  /** The batch of rank r in a round for these parameters. */
  predicate OwnBatch(views: seq<seq<OwnPut>>, r: nat, round: Round<Option<Pg>, nat>, batch: seq<Own>)
    requires r < |views|
  {
    |batch| == |round.batch| && forall e :: 0 <= e < |batch| ==> IsOwn(views, r, round.batch[e], batch[e])
  }

  predicate OwnBatches(views: seq<seq<OwnPut>>, round: Round<Option<Pg>, nat>, batches: seq<seq<Own>>) {
    |batches| == |views| && forall r :: 0 <= r < |views| ==> OwnBatch(views, r, round, batches[r])
  }

  predicate WholeBatch(views: seq<seq<OwnPut>>, round: Round<Option<Pg>, nat>, entries: seq<Entry>)
    requires Lockstep(views)
  {
    |entries| == |round.batch| && forall e :: 0 <= e < |entries| ==> IsWhole(views, round.batch[e], entries[e])
  }

  /** Every rank makes the same rounds, each with its own parts of the same parameters. */
  lemma OwnRounds(views: seq<seq<OwnPut>>, r: nat, batchK: nat)
    requires Lockstep(views) && r < |views|
    ensures var numbered, own := AllRounds(Numbered(views), batchK), AllRounds(views[r], batchK);
            && |own| == |numbered|
            && forall i :: 0 <= i < |own| ==>
                own[i].group == numbered[i].group && OwnBatch(views, r, numbered[i], own[i].batch)
  {
    var rel: (nat, Own) -> bool := (i: nat, own: Own) => IsOwn(views, r, i, own);
    var numbered, own := AllRounds(Numbered(views), batchK), AllRounds(views[r], batchK);
    assert SamePuts(views[r], views[0]);
    forall i | 0 <= i < |views[r]| ensures RelatedPut(Numbered(views)[i], views[r][i], rel) {
      assert SamePut(views[r][i], views[0][i]);
    }
    RanksRelated(Numbered(views), views[r], batchK, rel);
    forall i | 0 <= i < |own|
      ensures own[i].group == numbered[i].group && OwnBatch(views, r, numbered[i], own[i].batch)
    {
      assert RelatedRound(numbered[i], own[i], rel);
    }
  }

  /** ... and so they would be with the whole deltas. */
  lemma WholeRounds(views: seq<seq<OwnPut>>, batchK: nat)
    requires Lockstep(views)
    ensures var numbered, whole := AllRounds(Numbered(views), batchK), AllRounds(Gathered(views), batchK);
            && |whole| == |numbered|
            && forall i :: 0 <= i < |whole| ==>
                whole[i].group == numbered[i].group && WholeBatch(views, numbered[i], whole[i].batch)
  {
    var rel: (nat, Entry) -> bool := (i: nat, entry: Entry) => IsWhole(views, i, entry);
    var numbered, whole := AllRounds(Numbered(views), batchK), AllRounds(Gathered(views), batchK);
    forall i | 0 <= i < |views[0]| ensures RelatedPut(Numbered(views)[i], Gathered(views)[i], rel) {
    }
    RanksRelated(Numbered(views), Gathered(views), batchK, rel);
    forall i | 0 <= i < |whole|
      ensures whole[i].group == numbered[i].group && WholeBatch(views, numbered[i], whole[i].batch)
    {
      assert RelatedRound(numbered[i], whole[i], rel);
    }
  }

  function PartsOf(batch: seq<Own>): seq<Part> {
    seq(|batch|, e requires 0 <= e < |batch| => batch[e].part)
  }

  function TypesIn(batch: seq<Own>): seq<ValueType> {
    seq(|batch|, e requires 0 <= e < |batch| => batch[e].vtype)
  }

  function SlotsIn(batch: seq<Own>): seq<seq<Slot>> {
    seq(|batch|, e requires 0 <= e < |batch| => batch[e].slots)
  }

  lemma OwnPartsFit(views: seq<seq<OwnPut>>, round: Round<Option<Pg>, nat>, batches: seq<seq<Own>>, r: nat)
    requires Lockstep(views) && OwnBatches(views, round, batches) && r < |views|
    ensures |batches[r]| == |batches[0]| == |round.batch| && PartsFit(PartsOf(batches[r]), SlotsIn(batches[0]))
  {
    assert OwnBatch(views, r, round, batches[r]) && OwnBatch(views, 0, round, batches[0]);
    forall e | 0 <= e < |round.batch| ensures PartFits(PartsOf(batches[r])[e], SlotsIn(batches[0])[e]) {
      assert IsOwn(views, r, round.batch[e], batches[r][e]) && IsOwn(views, 0, round.batch[e], batches[0][e]);
      assert SamePuts(views[r], views[0]) && SamePut(views[r][round.batch[e]], views[0][round.batch[e]]);
    }
  }

  // ---------- the types of the values ----------

  function Retyped(entry: Entry, vtype: ValueType): Entry {
    seq(|entry|, j requires 0 <= j < |entry| => entry[j].(vtype := vtype))
  }

  /** A gather concatenates the values of its batch, which converts them all to the
      promoted type; without a group nothing is concatenated. */
  function Converted(round: Round<Option<Pg>, Entry>, types: seq<ValueType>): Round<Option<Pg>, Entry> {
    if round.group.None? || types == [] then round
    else Round(round.group, seq(|round.batch|, e requires 0 <= e < |round.batch| =>
                                Retyped(round.batch[e], PromoteAll(types).value)))
  }

  predicate InRange(views: seq<seq<OwnPut>>, round: Round<Option<Pg>, nat>) {
    |views| > 0 && forall e :: 0 <= e < |round.batch| ==> round.batch[e] < |views[0]|
  }

  function RoundTypes(views: seq<seq<OwnPut>>, round: Round<Option<Pg>, nat>): seq<ValueType>
    requires InRange(views, round)
  {
    seq(|round.batch|, e requires 0 <= e < |round.batch| => views[0][round.batch[e]].entry.vtype)
  }

  lemma PutInRange(views: seq<seq<OwnPut>>, round: Round<Option<Pg>, nat>)
    requires |views| > 0 && WasPut(round, Numbered(views))
    ensures InRange(views, round)
  {
    forall e | 0 <= e < |round.batch| ensures round.batch[e] < |views[0]| {
      assert Put(round.group, round.batch[e]) in Numbered(views);
    }
  }

  lemma AllInRange(views: seq<seq<OwnPut>>, batchK: nat)
    requires |views| > 0
    ensures forall i :: 0 <= i < |AllRounds(Numbered(views), batchK)| ==>
              InRange(views, AllRounds(Numbered(views), batchK)[i])
  {
    var numbered := AllRounds(Numbered(views), batchK);
    RoundsWerePut(Numbered(views), batchK);
    forall i | 0 <= i < |numbered| ensures InRange(views, numbered[i]) {
      assert numbered[i] in numbered;
      PutInRange(views, numbered[i]);
    }
  }

  /** What the rounds deliver: those of the whole deltas, in the types of their batches. */
  function Delivered(views: seq<seq<OwnPut>>, batchK: nat): seq<Round<Option<Pg>, Entry>>
    requires Lockstep(views)
  {
    WholeRounds(views, batchK);
    AllInRange(views, batchK);
    ConvertedAll(views, AllRounds(Numbered(views), batchK), AllRounds(Gathered(views), batchK))
  }

  function ConvertedAll(views: seq<seq<OwnPut>>, numbered: seq<Round<Option<Pg>, nat>>,
                        whole: seq<Round<Option<Pg>, Entry>>)
    : (r: seq<Round<Option<Pg>, Entry>>)
    requires |whole| == |numbered| && forall i :: 0 <= i < |numbered| ==> InRange(views, numbered[i])
    ensures |r| == |whole| && forall i :: 0 <= i < |r| ==> r[i] == Converted(whole[i], RoundTypes(views, numbered[i]))
  {
    seq(|whole|, i requires 0 <= i < |whole| => Converted(whole[i], RoundTypes(views, numbered[i])))
  }

  predicate SameEntries(batch: seq<Entry>, others: seq<Entry>) {
    |batch| == |others| && forall e :: 0 <= e < |batch| ==> SameButTypes(batch[e], others[e])
  }

  predicate SameRounds(rounds: seq<Round<Option<Pg>, Entry>>, others: seq<Round<Option<Pg>, Entry>>) {
    |rounds| == |others| && forall i :: 0 <= i < |rounds| ==> SameEntries(rounds[i].batch, others[i].batch)
  }

  lemma SameButTypesConcat(a: Entry, b: Entry, c: Entry, d: Entry)
    requires SameButTypes(a, c) && SameButTypes(b, d)
    ensures SameButTypes(a + b, c + d)
  {
  }

  lemma {:induction false} FlattenSame(batch: seq<Entry>, others: seq<Entry>)
    requires SameEntries(batch, others)
    ensures SameButTypes(Flatten(batch), Flatten(others))
  {
    if batch != [] {
      FlattenSame(batch[1..], others[1..]);
      SameButTypesConcat(batch[0], Flatten(batch[1..]), others[0], Flatten(others[1..]));
    }
  }

  lemma {:induction false} SlotsSame(rounds: seq<Round<Option<Pg>, Entry>>, others: seq<Round<Option<Pg>, Entry>>)
    requires SameRounds(rounds, others)
    ensures SameButTypes(SlotsOf(rounds), SlotsOf(others))
  {
    if rounds != [] {
      var n := |rounds| - 1;
      SlotsSame(rounds[..n], others[..n]);
      FlattenSame(rounds[n].batch, others[n].batch);
      SameButTypesConcat(SlotsOf(rounds[..n]), Flatten(rounds[n].batch), SlotsOf(others[..n]),
                         Flatten(others[n].batch));
    }
  }

  /** The slots delivered are those of the whole deltas, up to the types of the values. */
  lemma DeliveredSame(views: seq<seq<OwnPut>>, batchK: nat)
    requires Lockstep(views)
    ensures SameButTypes(SlotsOf(Delivered(views, batchK)), SlotsOf(AllRounds(Gathered(views), batchK)))
  {
    var numbered, whole := AllRounds(Numbered(views), batchK), AllRounds(Gathered(views), batchK);
    WholeRounds(views, batchK);
    AllInRange(views, batchK);
    forall i | 0 <= i < |whole| ensures SameEntries(Delivered(views, batchK)[i].batch, whole[i].batch) {
      ConvertedSame(whole[i], RoundTypes(views, numbered[i]));
    }
    SlotsSame(Delivered(views, batchK), whole);
  }

  /** The values of a delivered slot have the least type that includes the types of all
      parameters of its round; without a group they keep their own. */
  lemma DeliveredTypes(views: seq<seq<OwnPut>>, batchK: nat, i: nat, e: nat, j: nat, c: ValueType)
    requires Lockstep(views) && i < |Delivered(views, batchK)|
    requires e < |Delivered(views, batchK)[i].batch| && j < |Delivered(views, batchK)[i].batch[e]|
    ensures i < |AllRounds(Numbered(views), batchK)|
    ensures var round, put := Delivered(views, batchK)[i], AllRounds(Numbered(views), batchK)[i];
            && round.group == put.group && |round.batch| == |put.batch|
            && (forall k :: 0 <= k < |put.batch| ==> put.batch[k] < |views[0]|)
            && var t := round.batch[e][j].vtype;
            if round.group.None? then t == views[0][put.batch[e]].entry.vtype
            else Includes(c, t)
                 <==> forall k :: 0 <= k < |put.batch| ==> Includes(c, views[0][put.batch[k]].entry.vtype)
  {
    WholeRounds(views, batchK);
    AllInRange(views, batchK);
    var whole, put := AllRounds(Gathered(views), batchK)[i], AllRounds(Numbered(views), batchK)[i];
    assert InRange(views, put) && IsWhole(views, put.batch[e], whole.batch[e]);
    var types := RoundTypes(views, put);
    PromoteAllIsLeast(types, c);
    assert forall k :: 0 <= k < |types| ==> types[k] == views[0][put.batch[k]].entry.vtype;
  }

  lemma ConvertedSame(round: Round<Option<Pg>, Entry>, types: seq<ValueType>)
    ensures SameEntries(Converted(round, types).batch, round.batch)
  {
  }

  // ---------- _flush ----------

  /** _flush: a gather of the group's parts, or rank 0's own parts. */
  method FlushRound(group: Option<Pg>, batches: seq<seq<Own>>, maxRoundBytes: int, ghost views: seq<seq<OwnPut>>,
                    ghost round: Round<Option<Pg>, nat>, ghost whole: Round<Option<Pg>, Entry>)
    returns (entries: seq<Entry>)
    requires Lockstep(views) && OwnBatches(views, round, batches) && round.group == group
    requires RoundFits(views, round, whole) && InRange(views, round)
    ensures entries == Converted(whole, RoundTypes(views, round)).batch
  {
    forall r | 0 <= r < |views| ensures PartsFit(PartsOf(batches[r]), SlotsIn(batches[0])) {
      OwnPartsFit(views, round, batches, r);
    }
    if group.None? {
      entries := FlushOwn(batches[0], views, round);
      SameBatch(views, round, entries, whole.batch);
    } else {
      var members := group.value.members;
      assert round.batch[0] in round.batch && GroupOk(views[0][round.batch[0]].group, |views|);
      var parts := seq(|members|, m requires 0 <= m < |members| => PartsOf(batches[members[m]]));
      TypesAre(views, round, batches[0]);
      entries := FlushGroup(SlotsIn(batches[0]), TypesIn(batches[0]), parts, maxRoundBytes);
      forall e | 0 <= e < |entries|
        ensures entries[e] == Retyped(whole.batch[e], PromoteAll(RoundTypes(views, round)).value)
      {
        ColumnIsWhole(views, round, batches, members, parts, e, PromoteAll(RoundTypes(views, round)).value);
        assert IsWhole(views, round.batch[e], whole.batch[e]);
      }
    }
  }

  lemma TypesAre(views: seq<seq<OwnPut>>, round: Round<Option<Pg>, nat>, batch: seq<Own>)
    requires InRange(views, round) && OwnBatch(views, 0, round, batch)
    ensures TypesIn(batch) == RoundTypes(views, round)
  {
    assert forall e :: 0 <= e < |batch| ==> IsOwn(views, 0, round.batch[e], batch[e]);
  }

  lemma ColumnIsWhole(views: seq<seq<OwnPut>>, round: Round<Option<Pg>, nat>, batches: seq<seq<Own>>, members: seq<nat>,
                      parts: seq<seq<Part>>, e: nat, vtype: ValueType)
    requires Lockstep(views) && OwnBatches(views, round, batches) && WasPut(round, Numbered(views)) && e < |round.batch|
    requires round.group.Some? && members == round.group.value.members
    requires |parts| == |members|
    requires forall m :: 0 <= m < |members| ==> members[m] < |views| && parts[m] == PartsOf(batches[members[m]])
    requires |batches[0]| == |round.batch| && RanksFit(parts, SlotsIn(batches[0])) && InRange(views, round)
    ensures WholeDelta(SlotsIn(batches[0])[e], vtype, Column(parts, SlotsIn(batches[0]), e))
            == Retyped(WholeAt(views, round.batch[e]), vtype)
  {
    var i := round.batch[e];
    assert OwnBatch(views, 0, round, batches[0]) && IsOwn(views, 0, i, batches[0][e]);
    assert Put(round.group, i) in Numbered(views);
    var column := Column(parts, SlotsIn(batches[0]), e);
    forall m | 0 <= m < |members| ensures column[m] == PartsAt(views, i)[m] {
      assert OwnBatch(views, members[m], round, batches[members[m]])
          && IsOwn(views, members[m], i, batches[members[m]][e]);
    }
    assert column == PartsAt(views, i);
    RetypedWhole(views[0][i].entry.slots, views[0][i].entry.vtype, vtype, column);
  }

  lemma RetypedWhole(slots: seq<Slot>, a: ValueType, b: ValueType, parts: seq<Part>)
    requires EntryFits(parts, slots)
    ensures Retyped(WholeDelta(slots, a, parts), b) == WholeDelta(slots, b, parts)
  {
  }

  method FlushOwn(batch: seq<Own>, ghost views: seq<seq<OwnPut>>, ghost round: Round<Option<Pg>, nat>)
    returns (entries: seq<Entry>)
    requires Lockstep(views) && round.group.None? && WasPut(round, Numbered(views)) && OwnBatch(views, 0, round, batch)
    ensures WholeBatch(views, round, entries)
  {
    entries := [];
    for e := 0 to |batch|
      invariant |entries| == e && forall k :: 0 <= k < e ==> IsWhole(views, round.batch[k], entries[k])
    {
      ghost var i := round.batch[e];
      assert IsOwn(views, 0, i, batch[e]) && Put(round.group, i) in Numbered(views);
      assert SamePuts(views[0], views[0]) && SamePut(views[0][i], views[0][i]);
      assert PartsAt(views, i) == [batch[e].part];
      var entry := FlushLocal(batch[e].slots, batch[e].vtype, batch[e].part);
      entries := entries + [entry];
    }
  }

  // ---------- the whole gather ----------

  /** Every rank runs its queue, and rank 0 takes what the rounds deliver: the same
      rounds as if the whole deltas had been put on rank 0, up to the types of values. */
  method GatherDeltas(views: seq<seq<OwnPut>>, batchGather: int, maxRoundBytes: int)
    returns (rounds: seq<Round<Option<Pg>, Entry>>)
    requires Lockstep(views)
    ensures rounds == Delivered(views, BatchOf(batchGather))
  {
    var ranks := RunQueues(views, batchGather);
    ghost var numbered := AllRounds(Numbered(views), BatchOf(batchGather));
    ghost var whole := AllRounds(Gathered(views), BatchOf(batchGather));
    AllInStep(views, BatchOf(batchGather), ranks);
    AllInRange(views, BatchOf(batchGather));
    rounds := Deliver(ranks, maxRoundBytes, views, numbered, whole);
  }

  predicate RoundsFit(views: seq<seq<OwnPut>>, numbered: seq<Round<Option<Pg>, nat>>,
                      whole: seq<Round<Option<Pg>, Entry>>)
    requires Lockstep(views)
  {
    |whole| == |numbered| && forall i :: 0 <= i < |numbered| ==> RoundFits(views, numbered[i], whole[i])
  }

  method Deliver(ranks: seq<seq<Round<Option<Pg>, Own>>>, maxRoundBytes: int, ghost views: seq<seq<OwnPut>>,
                 ghost numbered: seq<Round<Option<Pg>, nat>>, ghost whole: seq<Round<Option<Pg>, Entry>>)
    returns (rounds: seq<Round<Option<Pg>, Entry>>)
    requires Lockstep(views) && RanksInStep(views, numbered, ranks) && RoundsFit(views, numbered, whole)
    requires forall i :: 0 <= i < |numbered| ==> InRange(views, numbered[i])
    ensures rounds == ConvertedAll(views, numbered, whole)
  {
    assert OwnRoundsOf(views, 0, numbered, ranks[0]);
    rounds := [];
    for i := 0 to |ranks[0]|
      invariant rounds == ConvertedAll(views, numbered, whole)[..i]
    {
      assert RoundFits(views, numbered[i], whole[i]);
      var round := RoundAt(ranks, i, maxRoundBytes, views, numbered, whole[i]);
      rounds := rounds + [round];
    }
  }

  lemma AllInStep(views: seq<seq<OwnPut>>, batchK: nat, ranks: seq<seq<Round<Option<Pg>, Own>>>)
    requires Lockstep(views) && |ranks| == |views|
    requires forall r :: 0 <= r < |views| ==> ranks[r] == AllRounds(views[r], batchK)
    ensures var numbered, whole := AllRounds(Numbered(views), batchK), AllRounds(Gathered(views), batchK);
            RanksInStep(views, numbered, ranks) && RoundsFit(views, numbered, whole)
  {
    var numbered, whole := AllRounds(Numbered(views), batchK), AllRounds(Gathered(views), batchK);
    WholeRounds(views, batchK);
    RoundsWerePut(Numbered(views), batchK);
    forall r | 0 <= r < |views| ensures OwnRoundsOf(views, r, numbered, ranks[r]) {
      OwnRounds(views, r, batchK);
    }
    forall i | 0 <= i < |numbered| ensures RoundFits(views, numbered[i], whole[i]) {
      assert numbered[i] in numbered;
    }
  }

  /** The round as it would be with the whole deltas. */
  predicate RoundFits(views: seq<seq<OwnPut>>, round: Round<Option<Pg>, nat>, whole: Round<Option<Pg>, Entry>)
    requires Lockstep(views)
  {
    WasPut(round, Numbered(views)) && whole.group == round.group && WholeBatch(views, round, whole.batch)
  }

  predicate RanksInStep(views: seq<seq<OwnPut>>, numbered: seq<Round<Option<Pg>, nat>>,
                        ranks: seq<seq<Round<Option<Pg>, Own>>>) {
    |ranks| == |views| && forall r :: 0 <= r < |views| ==> OwnRoundsOf(views, r, numbered, ranks[r])
  }

  /** The i-th round of all ranks. */
  method RoundAt(ranks: seq<seq<Round<Option<Pg>, Own>>>, i: nat, maxRoundBytes: int, ghost views: seq<seq<OwnPut>>,
                 ghost numbered: seq<Round<Option<Pg>, nat>>, ghost whole: Round<Option<Pg>, Entry>)
    returns (round: Round<Option<Pg>, Entry>)
    requires Lockstep(views) && RanksInStep(views, numbered, ranks) && i < |numbered|
    requires RoundFits(views, numbered[i], whole) && InRange(views, numbered[i])
    ensures round == Converted(whole, RoundTypes(views, numbered[i]))
  {
    assert OwnRoundsOf(views, 0, numbered, ranks[0]);
    var batches := BatchesOf(ranks, i, views, numbered);
    var entries := FlushRound(ranks[0][i].group, batches, maxRoundBytes, views, numbered[i], whole);
    round := Round(ranks[0][i].group, entries);
  }

  predicate OwnRoundsOf(views: seq<seq<OwnPut>>, r: nat, numbered: seq<Round<Option<Pg>, nat>>,
                        own: seq<Round<Option<Pg>, Own>>)
    requires r < |views|
  {
    && |own| == |numbered|
    && forall i :: 0 <= i < |own| ==> own[i].group == numbered[i].group && OwnBatch(views, r, numbered[i], own[i].batch)
  }

  /** The i-th batch of every rank. */
  method BatchesOf(ranks: seq<seq<Round<Option<Pg>, Own>>>, i: nat, ghost views: seq<seq<OwnPut>>,
                   ghost numbered: seq<Round<Option<Pg>, nat>>)
    returns (batches: seq<seq<Own>>)
    requires RanksInStep(views, numbered, ranks) && i < |numbered|
    ensures OwnBatches(views, numbered[i], batches)
  {
    batches := [];
    for r := 0 to |ranks|
      invariant |batches| == r && forall q :: 0 <= q < r ==> OwnBatch(views, q, numbered[i], batches[q])
    {
      assert OwnRoundsOf(views, r, numbered, ranks[r]);
      batches := batches + [ranks[r][i].batch];
    }
  }

  lemma SameBatch(views: seq<seq<OwnPut>>, round: Round<Option<Pg>, nat>, a: seq<Entry>, b: seq<Entry>)
    requires Lockstep(views) && WholeBatch(views, round, a) && WholeBatch(views, round, b)
    ensures a == b
  {
    assert forall e :: 0 <= e < |a| ==> IsWhole(views, round.batch[e], a[e]) && IsWhole(views, round.batch[e], b[e]);
  }

  method RunQueues(views: seq<seq<OwnPut>>, batchGather: int) returns (ranks: seq<seq<Round<Option<Pg>, Own>>>)
    ensures |ranks| == |views| && forall r :: 0 <= r < |views| ==> ranks[r] == AllRounds(views[r], BatchOf(batchGather))
  {
    ranks := [];
    for r := 0 to |views|
      invariant |ranks| == r && forall q :: 0 <= q < r ==> ranks[q] == AllRounds(views[q], BatchOf(batchGather))
    {
      var own := RunQueue(views[r], batchGather);
      ranks := ranks + [own];
    }
  }
}
