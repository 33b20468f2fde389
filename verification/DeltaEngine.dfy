/** One synchronisation of the delta engine on the sender, and what it does to the
    rollout weights (verl/checkpoint_engine/delta_checkpoint_engine.py, send_weights,
    _send_full_seed, _verify_due). The sender is rank 0; the other ranks only take
    part in the gathers. */
module DeltaEngine {
  import opened DeltaBuckets
  import opened DeltaGather
  import opened DeltaMessages
  import opened DeltaRounds
  import opened DeltaWire
  import opened FlushBuckets
  import opened GatherQueues
  import opened WeightDeltas

  // ---------- the messages of one synchronisation ----------

  function ValuesSized(full: seq<ValuesPiece>): seq<Sized<ValuesPiece>> {
    if full == [] then [] else
      ValuesSized(full[..|full| - 1]) + [Sized(full[|full| - 1], full[|full| - 1].nbytes)]
  }

  function SeedMessages(full: seq<ValuesPiece>, cap: int, verify: bool): seq<Message> {
    if full == [] then [Terminal(true)] else DenseOf(Stream(Flushes(ValuesSized(full), cap), true), verify)
  }

  /** The indexed part; a sweep that follows carries the end marker. */
  function SteadyMessages(slots: seq<FlushPiece>, cap: int, verify: bool): seq<Message> {
    if Sliced(slots) == [] && !verify then [Terminal(false)]
    else IndexedOf(Stream(Flushes(Sliced(slots), cap), !verify))
  }

  function SyncMessages(slots: seq<FlushPiece>, full: seq<ValuesPiece>, cap: int, verify: bool): seq<Message> {
    SteadyMessages(slots, cap, verify) + if verify then SeedMessages(full, cap, true) else []
  }

  /** The steady synchronisation number n (from 1) ends with a sweep. */
  predicate Due(verifyEvery: int, n: nat) {
    verifyEvery > 0 && n % verifyEvery == 0
  }

  // ---------- failing synchronisations ----------

  /** What a call publishes; not ok when an assertion fires. */
  datatype Sent = Sent(messages: seq<Message>, ok: bool)

  /** The parameters up to the first repeated name. */
  function DistinctPrefix(full: seq<ValuesPiece>): seq<ValuesPiece> {
    if full == [] then [] else
      var n := |full| - 1;
      var p := DistinctPrefix(full[..n]);
      if |p| == n && full[n].name !in Names(p) then full else p
  }

  /** A repeated name fires the assertion; every full flush but the last is out. */
  function SeedSent(full: seq<ValuesPiece>, cap: int, verify: bool): Sent {
    if DistinctParams(full) then Sent(SeedMessages(full, cap, verify), true)
    else Sent(DenseOf(Emitted(ValuesSized(DistinctPrefix(full)), cap), verify), false)
  }

  /** No flush that is sealed while the parameters are gathered fires the assertion. */
  predicate LoopEnds(slots: seq<FlushPiece>, cap: int) {
    var full := Cut(Sliced(slots), cap).full;
    Encodables(full) == |full|
  }

  /** By how much a steady synchronisation is counted. */
  function Counted(slots: seq<FlushPiece>, cap: int): nat {
    if LoopEnds(slots, cap) then 1 else 0
  }

  /** The synchronisation after n counted ones gets to a sweep. */
  predicate Sweeps(slots: seq<FlushPiece>, cap: int, verifyEvery: int, n: nat) {
    LoopEnds(slots, cap) && Due(verifyEvery, n + 1)
  }

  /** The int32 assertion fires for one flush; the earlier ones are out, unflagged. */
  function SteadySent(slots: seq<FlushPiece>, cap: int, verify: bool): Sent {
    var flushes := Flushes(Sliced(slots), cap);
    if SlotsEncodable(slots) then Sent(SteadyMessages(slots, cap, verify), true)
    else Sent(IndexedOf(Unflagged(flushes[..Encodables(flushes)])), false)
  }

  function SyncSent(slots: seq<FlushPiece>, full: seq<ValuesPiece>, cap: int, verify: bool): Sent {
    var steady := SteadySent(slots, cap, verify);
    if steady.ok && verify then
      var sweep := SeedSent(full, cap, true);
      Sent(steady.messages + sweep.messages, sweep.ok)
    else steady
  }

  class Engine {
    const bucketSize: int
    const batchGather: int
    const verifyEvery: int
    var shardSeeded: bool
    var steadyCount: nat
    ghost var steadySyncs: nat

    ghost predicate Valid()
      reads this
    {
      steadyCount == if verifyEvery > 0 then steadySyncs else 0
    }

    constructor (bucketSize: int, batchGather: int, verifyEvery: int)
      ensures Valid() && !shardSeeded && steadySyncs == 0
      ensures this.bucketSize == bucketSize && this.batchGather == batchGather && this.verifyEvery == verifyEvery
    {
      this.bucketSize, this.batchGather, this.verifyEvery := bucketSize, batchGather, verifyEvery;
      shardSeeded, steadyCount, steadySyncs := false, 0, 0;
    }

    method VerifyDue() returns (due: bool)
      requires Valid()
      modifies this`steadyCount, this`steadySyncs
      ensures Valid() && steadySyncs == old(steadySyncs) + 1
      ensures due <==> verifyEvery > 0 && steadySyncs % verifyEvery == 0
    {
      steadySyncs := steadySyncs + 1;
      if verifyEvery <= 0 {
        return false;
      }
      steadyCount := steadyCount + 1;
      return steadyCount % verifyEvery == 0;
    }

    method SendFullSeed(full: seq<ValuesPiece>, verify: bool) returns (sent: Sent)
      modifies this`shardSeeded
      ensures sent == SeedSent(full, bucketSize, verify) && AllOfSeed(sent.messages, verify)
      ensures shardSeeded == (old(shardSeeded) || (sent.ok && !verify))
    {
      SeedKinds(full, bucketSize, verify);
      var bkt := new FlushBucket<ValuesPiece>(bucketSize);
      var distinct := BucketValues(bkt, full);
      if !distinct {
        PublishedIsEmitted(bkt);
        var messages := PublishValues(bkt.published, verify);
        return Sent(messages, false);
      }
      ValuesSizedAre(full);
      if !verify {
        shardSeeded := true;
      }
      var any := bkt.Finish(true);
      if any {
        var messages := PublishValues(bkt.published, verify);
        return Sent(messages, true);
      } else {
        return Sent([Terminal(true)], true);
      }
    }

    /** The indexed part of a steady synchronisation, its wire bytes, and whether a sweep
        is due. When the assertion fires for a flush that a piece filled, the loop over the
        parameters does not end and the synchronisation is not counted. */
    method SendSteady(views: seq<seq<OwnPut>>) returns (sent: Sent, wire: nat, verify: bool)
      requires Valid() && Lockstep(views) && AllWellFormed(PutSlots(Gathered(views)))
      modifies this`steadyCount, this`steadySyncs
      ensures var slots := RoundSlots(views, batchGather);
              && steadySyncs == old(steadySyncs) + (if LoopEnds(slots, bucketSize) then 1 else 0)
              && verify == Sweeps(slots, bucketSize, verifyEvery, old(steadySyncs))
              && sent == SteadySent(slots, bucketSize, verify) && wire == TotalWire(slots)
      ensures Valid()
    {
      var bkt := new FlushBucket<FlushPiece>(bucketSize);
      wire := GatherInto(bkt, views, batchGather);
      sent, verify := PublishSteady(bkt, RoundSlots(views, batchGather));
    }

    /** Publishing the slots that were bucketed; the counter is asked in between. */
    method PublishSteady(bkt: FlushBucket<FlushPiece>, ghost slots: seq<FlushPiece>) returns (sent: Sent, verify: bool)
      requires Valid() && bkt.Valid() && bkt.cap == bucketSize && bkt.added == Sliced(slots) && AllWellFormed(slots)
      modifies this`steadyCount, this`steadySyncs, bkt
      ensures Valid() && steadySyncs == old(steadySyncs) + Counted(slots, bucketSize)
      ensures verify == Sweeps(slots, bucketSize, verifyEvery, old(steadySyncs))
      ensures sent == SteadySent(slots, bucketSize, verify)
    {
      var messages, ok := PublishFull(bkt, slots);
      if !ok {
        return Sent(messages, false), false;
      }
      verify := VerifyDue();
      sent := FinishSteady(bkt, slots, verify);
    }

    /** One synchronisation. */
    method SendWeights(full: seq<ValuesPiece>, views: seq<seq<OwnPut>>) returns (sent: Sent)
      requires Valid() && Lockstep(views) && AllWellFormed(PutSlots(Gathered(views)))
      modifies this
      ensures Valid() && shardSeeded == (old(shardSeeded) || DistinctParams(full))
      ensures !old(shardSeeded) ==> steadySyncs == old(steadySyncs) && sent == SeedSent(full, bucketSize, false)
      ensures !old(shardSeeded) ==> AllOfSeed(sent.messages, false)
      ensures old(shardSeeded) ==>
                var slots := RoundSlots(views, batchGather);
                && steadySyncs == old(steadySyncs) + Counted(slots, bucketSize)
                && sent == SyncSent(slots, full, bucketSize, Sweeps(slots, bucketSize, verifyEvery, old(steadySyncs)))
    {
      if !shardSeeded {
        sent := SendFullSeed(full, false);
        return;
      }
      var wire, verify;
      sent, wire, verify := SendSteady(views);
      if sent.ok && verify {
        var sweep := SendFullSeed(full, true);
        sent := Sent(sent.messages + sweep.messages, sweep.ok);
      }
    }
  }

  /** Gathering what the ranks put, slice by slice. */
  method GatherInto(bkt: FlushBucket<FlushPiece>, views: seq<seq<OwnPut>>, batchGather: int) returns (wire: nat)
    requires bkt.Valid() && bkt.added == [] && Lockstep(views) && AllWellFormed(PutSlots(Gathered(views)))
    modifies bkt
    ensures bkt.Valid() && bkt.added == Sliced(RoundSlots(views, batchGather))
    ensures wire == TotalWire(RoundSlots(views, batchGather)) && AllWellFormed(RoundSlots(views, batchGather))
  {
    var rounds := GatherDeltas(views, batchGather, bkt.cap);
    RoundsWellFormed(views, batchGather);
    wire := BucketRounds(bkt, rounds);
    assert [] + Sliced(SlotsOf(rounds)) == Sliced(SlotsOf(rounds));
  }

  /** Sealing and publishing what is left. */
  method FinishSteady(bkt: FlushBucket<FlushPiece>, ghost slots: seq<FlushPiece>, verify: bool) returns (sent: Sent)
    requires bkt.Valid() && bkt.added == Sliced(slots) && AllWellFormed(slots)
    modifies bkt
    ensures sent == SteadySent(slots, bkt.cap, verify)
  {
    SteadyPublishable(slots, bkt.cap, !verify);
    var any := bkt.Finish(!verify);
    if any {
      var messages, ok := PublishIndexed(bkt.published);
      if !ok {
        FailedPublish(Flushes(Sliced(slots), bkt.cap), !verify, |messages|);
      }
      return Sent(messages, ok);
    }
    return Sent(if verify then [] else [Terminal(false)], true);
  }

  /** Publishing what was sealed while the pieces were added. */
  method PublishFull(bkt: FlushBucket<FlushPiece>, ghost slots: seq<FlushPiece>)
    returns (messages: seq<Message>, ok: bool)
    requires bkt.Valid() && bkt.added == Sliced(slots) && AllWellFormed(slots)
    ensures ok <==> LoopEnds(slots, bkt.cap)
    ensures !ok ==> FailedWith(slots, bkt.cap, messages)
  {
    var sealed := bkt.published;
    if bkt.pending.Some? {
      sealed := sealed + [Published(bkt.pending.value, false)];
    }
    assert sealed == Unflagged(Cut(Sliced(slots), bkt.cap).full);
    FullPublishable(slots, bkt.cap);
    messages, ok := PublishIndexed(sealed);
    if !ok {
      FailedFull(slots, bkt.cap, |messages|);
    }
  }

  /** The assertion fires, and these messages are out. */
  predicate FailedWith(slots: seq<FlushPiece>, cap: int, messages: seq<Message>) {
    var flushes := Flushes(Sliced(slots), cap);
    !SlotsEncodable(slots) && messages == IndexedOf(Unflagged(flushes[..Encodables(flushes)]))
  }

  /** The slots in the order in which the gather rounds deliver them. */
  function RoundSlots(views: seq<seq<OwnPut>>, batchGather: int): seq<FlushPiece>
    requires Lockstep(views)
  {
    SlotsOf(Delivered(views, BatchOf(batchGather)))
  }

  /** ... are well-formed and encodable as the slots put are. */
  lemma RoundsWellFormed(views: seq<seq<OwnPut>>, batchGather: int)
    requires Lockstep(views) && AllWellFormed(PutSlots(Gathered(views)))
    ensures AllWellFormed(RoundSlots(views, batchGather))
    ensures SlotsEncodable(RoundSlots(views, batchGather)) <==> SlotsEncodable(PutSlots(Gathered(views)))
  {
    var puts, batchK := Gathered(views), BatchOf(batchGather);
    var a, b := SlotsOf(AllRounds(puts, batchK)), PutSlots(puts);
    forall p: FlushPiece ensures p in a <==> p in b {
      RoundsCarrySlots(puts, batchK, p);
    }
    assert forall i :: 0 <= i < |a| ==> a[i] in b;
    assert forall i :: 0 <= i < |b| ==> b[i] in a;
    DeliveredSame(views, batchK);
    SameEncodable(RoundSlots(views, batchGather), a);
    SameFit(map[], RoundSlots(views, batchGather), a);
  }

  lemma SameEncodable(slots: seq<FlushPiece>, others: seq<FlushPiece>)
    requires SameButTypes(slots, others)
    ensures SlotsEncodable(slots) <==> SlotsEncodable(others)
  {
    assert forall i :: 0 <= i < |slots| ==> slots[i] == others[i].(vtype := slots[i].vtype);
  }

  lemma {:induction false} FlushesWellFormed(published: seq<Published<FlushPiece>>)
    ensures AllWellFormedFlushes(published) <==> AllWellFormed(AllPieces(published))
  {
    if published != [] {
      var n := |published| - 1;
      FlushesWellFormed(published[..n]);
      AllConcat(AllPieces(published[..n]), Pieces(published[n].flush));
      assert forall i :: 0 <= i < n ==> published[..n][i] == published[i];
      assert AllPieces(published) == AllPieces(published[..n]) + Pieces(published[n].flush);
    }
  }

  lemma {:induction false} FlushesEncodable(published: seq<Published<FlushPiece>>)
    ensures AllEncodable(published) <==> Encodable(AllPieces(published))
  {
    if published != [] {
      var n := |published| - 1;
      FlushesEncodable(published[..n]);
      AllConcat(AllPieces(published[..n]), Pieces(published[n].flush));
      assert forall i :: 0 <= i < n ==> published[..n][i] == published[i];
      assert AllPieces(published) == AllPieces(published[..n]) + Pieces(published[n].flush);
    }
  }

  /** All flushes can be assembled if and only if each slot with changed elements
      passes the int32 assertion. */
  lemma SteadyPublishable(slots: seq<FlushPiece>, cap: int, isLast: bool)
    requires AllWellFormed(slots)
    ensures var published := Stream(Flushes(Sliced(slots), cap), isLast);
            && AllWellFormedFlushes(published)
            && (AllEncodable(published) <==> SlotsEncodable(slots))
            && (Sliced(slots) == [] ==> SlotsEncodable(slots))
  {
    StreamPieces(Sliced(slots), cap, isLast);
    SlicedWellFormed(slots);
    FlushesWellFormed(Stream(Flushes(Sliced(slots), cap), isLast));
    FlushesEncodable(Stream(Flushes(Sliced(slots), cap), isLast));
  }

  lemma {:induction false} UnflaggedPrefix(flushes: seq<seq<Sized<FlushPiece>>>, n: nat)
    requires n <= |flushes|
    ensures |Unflagged(flushes)| == |flushes| && Unflagged(flushes)[..n] == Unflagged(flushes[..n])
  {
    UnflaggedIs(flushes);
    UnflaggedIs(flushes[..n]);
  }

  lemma EncodablesAre(flushes: seq<seq<Sized<FlushPiece>>>, n: nat)
    requires n < |flushes| && !FlushEncodable(flushes[n]) && forall i :: 0 <= i < n ==> FlushEncodable(flushes[i])
    ensures Encodables(flushes) == n
  {
  }

  /** The sealed flushes are the first ones of the stream. */
  lemma FullPublishable(slots: seq<FlushPiece>, cap: int)
    requires AllWellFormed(slots)
    ensures var full := Cut(Sliced(slots), cap).full;
            && AllWellFormedFlushes(Unflagged(full))
            && (AllEncodable(Unflagged(full)) <==> LoopEnds(slots, cap))
            && full <= Flushes(Sliced(slots), cap) && |Unflagged(full)| == |full|
            && forall i :: 0 <= i < |full| ==> Unflagged(full)[i].flush == full[i]
  {
    var full, flushes := Cut(Sliced(slots), cap).full, Flushes(Sliced(slots), cap);
    SteadyPublishable(slots, cap, false);
    StreamIs(flushes, false);
    UnflaggedIs(full);
    forall i | 0 <= i < |full| ensures FlushWellFormed(Unflagged(full)[i].flush) {
      assert Stream(flushes, false)[i].flush == full[i];
    }
    if Encodables(full) < |full| {
      assert !FlushEncodable(Unflagged(full)[Encodables(full)].flush);
    }
  }

  /** When every changed parameter fits, the loop over the parameters ends. */
  lemma EncodableLoopEnds(slots: seq<FlushPiece>, cap: int)
    requires AllWellFormed(slots) && SlotsEncodable(slots)
    ensures LoopEnds(slots, cap)
  {
    var full, flushes := Cut(Sliced(slots), cap).full, Flushes(Sliced(slots), cap);
    SteadyPublishable(slots, cap, false);
    StreamIs(flushes, false);
    forall i | 0 <= i < |full| ensures FlushEncodable(full[i]) {
      assert Stream(flushes, false)[i].flush == flushes[i] == full[i];
    }
  }

  lemma FailedFull(slots: seq<FlushPiece>, cap: int, n: nat)
    requires AllWellFormed(slots)
    requires var sealed := Unflagged(Cut(Sliced(slots), cap).full);
             n < |sealed| && AllEncodable(sealed[..n]) && !FlushEncodable(sealed[n].flush)
    ensures FailedWith(slots, cap, IndexedOf(Unflagged(Cut(Sliced(slots), cap).full)[..n]))
  {
    var full, flushes := Cut(Sliced(slots), cap).full, Flushes(Sliced(slots), cap);
    FullPublishable(slots, cap);
    UnflaggedPrefix(full, n);
    assert full[..n] == flushes[..n];
    forall i | 0 <= i < n ensures FlushEncodable(flushes[i]) {
      assert Unflagged(full)[..n][i].flush == full[i];
    }
    EncodablesAre(flushes, n);
    SteadyPublishable(slots, cap, false);
    StreamIs(flushes, false);
    assert !FlushEncodable(Stream(flushes, false)[n].flush);
  }

  /** The flushes before the one that cannot be assembled were published without the flag. */
  lemma FailedPublish(flushes: seq<seq<Sized<FlushPiece>>>, isLast: bool, n: nat)
    requires var published := Stream(flushes, isLast);
             n < |published| && AllEncodable(published[..n]) && !FlushEncodable(published[n].flush)
    ensures |Stream(flushes, isLast)| == |flushes| && Encodables(flushes) == n
    ensures Stream(flushes, isLast)[..n] == Unflagged(flushes[..n])
  {
    var published := Stream(flushes, isLast);
    StreamIs(flushes, isLast);
    UnflaggedIs(flushes[..n]);
    assert forall i :: 0 <= i < n ==> published[..n][i] == published[i];
    EncodablesAre(flushes, n);
  }

  // ---------- the full export ----------

  function Names(full: seq<ValuesPiece>): set<string> {
    if full == [] then {} else Names(full[..|full| - 1]) + {full[|full| - 1].name}
  }

  lemma {:induction false} NamesAre(full: seq<ValuesPiece>, name: string)
    ensures name in Names(full) <==> exists j :: 0 <= j < |full| && full[j].name == name
  {
    if full != [] {
      var n := |full| - 1;
      NamesAre(full[..n], name);
      assert full == full[..n] + [full[n]];
    }
  }

  lemma DistinctLast(full: seq<ValuesPiece>, i: nat)
    requires i < |full| && DistinctParams(full[..i])
    ensures DistinctParams(full[..i + 1]) <==> full[i].name !in Names(full[..i])
    ensures Names(full[..i + 1]) == Names(full[..i]) + {full[i].name}
    ensures !DistinctParams(full[..i + 1]) ==> !DistinctParams(full)
    ensures ValuesSized(full[..i + 1]) == ValuesSized(full[..i]) + [Sized(full[i], full[i].nbytes)]
  {
    assert full[..i + 1][..i] == full[..i];
    NamesAre(full[..i], full[i].name);
    assert full[..i + 1] == full[..i] + [full[i]];
    if DistinctParams(full) {
      assert DistinctParams(full[..i + 1]);
    }
  }

  lemma {:induction false} PrefixIs(full: seq<ValuesPiece>, i: nat)
    requires i <= |full| && DistinctParams(full[..i])
    ensures DistinctPrefix(full[..i]) == full[..i]
    ensures i < |full| && full[i].name in Names(full[..i]) ==> DistinctPrefix(full) == full[..i]
  {
    if i > 0 {
      assert full[..i][..i - 1] == full[..i - 1];
      PrefixIs(full, i - 1);
      DistinctLast(full, i - 1);
    }
    if i < |full| && full[i].name in Names(full[..i]) {
      PrefixStays(full, i, |full|);
      assert full[..|full|] == full;
    }
  }

  lemma {:induction false} PrefixStays(full: seq<ValuesPiece>, i: nat, k: nat)
    requires i < k <= |full| && DistinctPrefix(full[..i]) == full[..i] && full[i].name in Names(full[..i])
    ensures DistinctPrefix(full[..k]) == full[..i]
  {
    assert full[..k][..k - 1] == full[..k - 1];
    if k > i + 1 {
      PrefixStays(full, i, k - 1);
    }
  }

  /** The loop over the export; false when a name is repeated. */
  method BucketValues(bkt: FlushBucket<ValuesPiece>, full: seq<ValuesPiece>) returns (distinct: bool)
    requires bkt.Valid() && bkt.added == []
    modifies bkt
    ensures distinct <==> DistinctParams(full)
    ensures bkt.Valid() && bkt.added == ValuesSized(DistinctPrefix(full)) && (distinct ==> DistinctPrefix(full) == full)
  {
    var seen: set<string> := {};
    for i := 0 to |full|
      invariant bkt.Valid() && bkt.added == ValuesSized(full[..i])
      invariant DistinctParams(full[..i])
      invariant seen == Names(full[..i])
    {
      DistinctLast(full, i);
      PrefixIs(full, i);
      if full[i].name in seen {
        return false;
      }
      seen := seen + {full[i].name};
      bkt.Add(full[i], full[i].nbytes);
    }
    assert full[..|full|] == full;
    PrefixIs(full, |full|);
    return true;
  }

  lemma {:induction false} ValuesSizedAre(full: seq<ValuesPiece>)
    ensures |ValuesSized(full)| == |full| && Pieces(ValuesSized(full)) == full
  {
    if full != [] {
      ValuesSizedAre(full[..|full| - 1]);
      assert full == full[..|full| - 1] + [full[|full| - 1]];
    }
  }

  // ---------- the end of the stream ----------

  /** Every synchronisation publishes exactly one end marker, as its last message. */
  lemma SeedEndsOnce(full: seq<ValuesPiece>, cap: int, verify: bool)
    ensures EndsOnce(SeedMessages(full, cap, verify))
  {
    if full != [] {
      var flushes := Flushes(ValuesSized(full), cap);
      ValuesSizedAre(full);
      CutNonEmpty(ValuesSized(full), cap);
      StreamIs(flushes, true);
      DenseFlags(Stream(flushes, true), verify);
    }
  }

  lemma SyncEndsOnce(slots: seq<FlushPiece>, full: seq<ValuesPiece>, cap: int, verify: bool)
    ensures EndsOnce(SyncMessages(slots, full, cap, verify))
  {
    SteadyEnds(slots, cap, verify);
    if verify {
      SeedEndsOnce(full, cap, true);
      EndsOnceAfter(SteadyMessages(slots, cap, verify), SeedMessages(full, cap, true));
    } else {
      assert SyncMessages(slots, full, cap, verify) == SteadyMessages(slots, cap, verify);
    }
  }

  lemma NoneEndUnflagged(flushes: seq<seq<Sized<FlushPiece>>>)
    ensures NoneEnds(IndexedOf(Unflagged(flushes)))
  {
    UnflaggedIs(flushes);
    IndexedFlags(Unflagged(flushes));
  }

  lemma NoneEndDense(flushes: seq<seq<Sized<ValuesPiece>>>, verify: bool)
    ensures NoneEnds(DenseOf(Unflagged(flushes), verify))
  {
    UnflaggedIs(flushes);
    DenseFlags(Unflagged(flushes), verify);
  }

  lemma NoneEndEmitted(all: seq<Sized<ValuesPiece>>, cap: int, verify: bool)
    ensures NoneEnds(DenseOf(Emitted(all, cap), verify))
  {
    var full := Cut(all, cap).full;
    if full != [] {
      NoneEndDense(full[..|full| - 1], verify);
    }
  }

  /** A synchronisation publishes its end marker, once and last, if and only if no
      assertion fires: the receiver never takes a failed one for complete. */
  lemma EndsOnceIffOk(slots: seq<FlushPiece>, full: seq<ValuesPiece>, cap: int, verify: bool)
    ensures var sent := SyncSent(slots, full, cap, verify);
            if sent.ok then EndsOnce(sent.messages) else NoneEnds(sent.messages)
  {
    SteadyEndsIffOk(slots, cap, verify);
    var steady := SteadySent(slots, cap, verify);
    if steady.ok && verify {
      var sweep := SeedSent(full, cap, true);
      SeedEndsIffOk(full, cap, true);
      if sweep.ok {
        EndsOnceAfter(steady.messages, sweep.messages);
      } else {
        NoneEndsAfter(steady.messages, sweep.messages);
      }
    }
  }

  /** A synchronisation succeeds if and only if no changed parameter is too large and,
      when it ends with a sweep, the export repeats no name; after a failed indexed part
      no sweep follows. */
  lemma SyncOkIff(slots: seq<FlushPiece>, full: seq<ValuesPiece>, cap: int, verify: bool)
    ensures var sent := SyncSent(slots, full, cap, verify);
            && (sent.ok <==> SlotsEncodable(slots) && (verify ==> DistinctParams(full)))
            && (!SlotsEncodable(slots) ==> forall i :: 0 <= i < |sent.messages| ==> !sent.messages[i].Dense?)
  {
    SteadyKinds(slots, cap, verify);
  }

  lemma NoneEndsAfter(a: seq<Message>, b: seq<Message>)
    requires NoneEnds(a) && NoneEnds(b)
    ensures NoneEnds(a + b)
  {
  }

  lemma SeedEndsIffOk(full: seq<ValuesPiece>, cap: int, verify: bool)
    ensures var sent := SeedSent(full, cap, verify);
            if sent.ok then EndsOnce(sent.messages) else NoneEnds(sent.messages)
  {
    if DistinctParams(full) {
      SeedEndsOnce(full, cap, verify);
    } else {
      NoneEndEmitted(ValuesSized(DistinctPrefix(full)), cap, verify);
    }
  }

  lemma SteadyEndsIffOk(slots: seq<FlushPiece>, cap: int, verify: bool)
    ensures var sent := SteadySent(slots, cap, verify);
            if sent.ok && !verify then EndsOnce(sent.messages) else NoneEnds(sent.messages)
  {
    if SlotsEncodable(slots) {
      SteadyEnds(slots, cap, verify);
    } else {
      var flushes := Flushes(Sliced(slots), cap);
      NoneEndUnflagged(flushes[..Encodables(flushes)]);
    }
  }

  lemma SteadyEnds(slots: seq<FlushPiece>, cap: int, verify: bool)
    ensures if verify then NoneEnds(SteadyMessages(slots, cap, verify))
            else EndsOnce(SteadyMessages(slots, cap, verify))
  {
    var flushes := Flushes(Sliced(slots), cap);
    CutNonEmpty(Sliced(slots), cap);
    StreamIs(flushes, !verify);
    IndexedFlags(Stream(flushes, !verify));
  }

  lemma EndsOnceAfter(a: seq<Message>, b: seq<Message>)
    requires NoneEnds(a) && EndsOnce(b)
    ensures EndsOnce(a + b)
  {
  }

  // ---------- the kinds of messages ----------

  /** A message of a full export: whole values with this flag, or the marker of a seed
      of nothing. */
  predicate OfSeed(m: Message, verify: bool) {
    match m
    case Dense(_, _, _, v) => v == verify
    case Terminal(isFull) => isFull
    case Indexed(_, _) => false
  }

  predicate AllOfSeed(messages: seq<Message>, verify: bool) {
    forall i :: 0 <= i < |messages| ==> OfSeed(messages[i], verify)
  }

  /** A message of the indexed part. */
  predicate OfSteady(m: Message) {
    m.Indexed? || m == Terminal(false)
  }

  lemma {:induction false} DenseKinds(published: seq<Published<ValuesPiece>>, verify: bool)
    ensures AllOfSeed(DenseOf(published, verify), verify)
  {
    if published != [] {
      DenseKinds(published[..|published| - 1], verify);
    }
  }

  /** Everything that a seed or sweep publishes, failed or not, carries its flag: a seed
      never goes out as a sweep. */
  lemma SeedKinds(full: seq<ValuesPiece>, cap: int, verify: bool)
    ensures AllOfSeed(SeedSent(full, cap, verify).messages, verify)
  {
    DenseKinds(Stream(Flushes(ValuesSized(full), cap), true), verify);
    DenseKinds(Emitted(ValuesSized(DistinctPrefix(full)), cap), verify);
  }

  lemma {:induction false} IndexedKinds(published: seq<Published<FlushPiece>>)
    ensures forall i :: 0 <= i < |IndexedOf(published)| ==> OfSteady(IndexedOf(published)[i])
  {
    if published != [] {
      IndexedKinds(published[..|published| - 1]);
    }
  }

  lemma SteadyKinds(slots: seq<FlushPiece>, cap: int, verify: bool)
    ensures var messages := SteadySent(slots, cap, verify).messages;
            forall i :: 0 <= i < |messages| ==> OfSteady(messages[i])
  {
    var flushes := Flushes(Sliced(slots), cap);
    IndexedKinds(Stream(flushes, !verify));
    IndexedKinds(Unflagged(flushes[..Encodables(flushes)]));
  }

  /** Messages without the flag count no mismatch, whatever the rollout holds. */
  lemma {:induction false} SeedNotSwept(ws: Weights, half: set<string>, messages: seq<Message>)
    requires AllOfSeed(messages, false)
    ensures SweepBad(ws, half, messages) == 0
  {
    if messages != [] {
      SeedNotSwept(ws, half, messages[..|messages| - 1]);
      assert OfSeed(messages[|messages| - 1], false);
    }
  }

  // ---------- what a synchronisation does to the rollout ----------

  lemma TerminalDoesNothing(ws: Weights, half: set<string>, isFull: bool)
    ensures ApplyMessages(ws, [Terminal(isFull)]) == ws && SweepBad(ws, half, [Terminal(isFull)]) == 0
  {
    LastMessage([], Terminal(isFull));
    LastSwept(ws, half, [], Terminal(isFull));
    assert [] + [Terminal(isFull)] == [Terminal(isFull)];
  }

  /** A seed or sweep leaves every exported parameter with its exported value. */
  lemma SeedSets(ws: Weights, half: set<string>, full: seq<ValuesPiece>, cap: int, verify: bool)
    ensures ApplyMessages(ws, SeedMessages(full, cap, verify)) == SetAll(ws, full)
    ensures verify ==> SweepBad(ws, half, SeedMessages(full, cap, verify)) == BadAll(ws, half, full)
  {
    if full == [] {
      TerminalDoesNothing(ws, half, true);
    } else {
      ValuesSizedAre(full);
      StreamPieces(ValuesSized(full), cap, true);
      ApplyDenseOf(ws, half, Stream(Flushes(ValuesSized(full), cap), true), verify);
    }
  }

  /** The indexed messages have the effect of applying each slot's whole delta once. */
  lemma SteadyApplies(ws: Weights, slots: seq<FlushPiece>, cap: int, verify: bool)
    requires AllFit(ws, slots) && SlotsEncodable(slots)
    ensures ApplyMessages(ws, SteadyMessages(slots, cap, verify)) == ApplyPieces(ws, slots)
  {
    assert AllWellFormed(slots);
    var published := Stream(Flushes(Sliced(slots), cap), !verify);
    ApplySliced(ws, slots);
    if Sliced(slots) == [] && !verify {
      LastMessage([], Terminal(false));
      assert Pieces(Sliced(slots)) == [];
    } else {
      SteadyPublishable(slots, cap, !verify);
      ApplyIndexed(ws, published);
      StreamPieces(Sliced(slots), cap, !verify);
    }
  }
}
