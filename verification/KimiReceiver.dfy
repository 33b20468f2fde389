/** The receive loop of the Kimi checkpoint engine
    (verl/checkpoint_engine/kimi_checkpoint_engine.py, receive_tensor): buckets held by
    several receiver ranks are broadcast in turn into the two halves of one buffer,
    and each is yielded while the next one arrives in the other half. */
module KimiReceiver {
  import opened Arithmetic
  import opened GatherQueues
  import opened Sequences
  import opened WeightChunks
  import opened Wrappers

  /** A tensor in a bucket; `itemsize` is that of its type. */
  datatype Item = Item(name: string, offset: nat, size: nat, itemsize: nat)

  datatype H2DBucket = H2DBucket(items: seq<Item>, bytes: seq<byte>)

  datatype Yielded = Yielded(name: string, bytes: seq<byte>)

  /** What the generator yielded, and whether it ended without an exception. */
  datatype Received = Received(ok: bool, out: seq<Yielded>)

  /** A bucket and the rank that broadcasts it. */
  type Assigned = Put<nat, H2DBucket>

  predicate WellFormed(b: H2DBucket, bucketSize: nat) {
    |b.bytes| <= bucketSize && forall i :: 0 <= i < |b.items| ==> b.items[i].offset + b.items[i].size <= |b.bytes|
  }

  predicate AllWellFormed(buckets: seq<Assigned>, bucketSize: nat) {
    forall i :: 0 <= i < |buckets| ==> WellFormed(buckets[i].entry, bucketSize)
  }

  // ---------- the order of the broadcasts ----------

  /** Round i: bucket i of every rank that has so many, in the order of the ranks. */
  function RoundOf(ranks: seq<nat>, buckets: seq<Assigned>, i: nat): seq<Assigned> {
    if ranks == [] then [] else
      var n := |ranks| - 1;
      var own := EntriesOf(buckets, ranks[n]);
      RoundOf(ranks[..n], buckets, i) + if i < |own| then [Put(ranks[n], own[i])] else []
  }

  function RoundsBefore(buckets: seq<Assigned>, i: nat): seq<Assigned> {
    if i == 0 then [] else RoundsBefore(buckets, i - 1) + RoundOf(Groups(buckets), buckets, i - 1)
  }

  /** The largest number of buckets of a rank. */
  function MaxLen(ranks: seq<nat>, buckets: seq<Assigned>): nat {
    if ranks == [] then 0 else
      Max(MaxLen(ranks[..|ranks| - 1], buckets), |EntriesOf(buckets, ranks[|ranks| - 1])|)
  }

  function Max(a: nat, b: nat): nat {
    if a < b then b else a
  }

  function Broadcasts(buckets: seq<Assigned>): seq<Assigned> {
    RoundsBefore(buckets, MaxLen(Groups(buckets), buckets))
  }

  lemma {:induction false} EntriesConcat(a: seq<Assigned>, b: seq<Assigned>, rank: nat)
    ensures EntriesOf(a + b, rank) == EntriesOf(a, rank) + EntriesOf(b, rank)
  {
    if b == [] {
      assert a + b == a;
    } else {
      var n := |b| - 1;
      assert (a + b)[..|a| + n] == a + b[..n] && (a + b)[|a| + n] == b[n];
      EntriesConcat(a, b[..n], rank);
    }
  }

  lemma EntriesAppend(a: seq<Assigned>, p: Assigned, rank: nat)
    ensures EntriesOf(a + [p], rank) == EntriesOf(a, rank) + if p.group == rank then [p.entry] else []
  {
    assert (a + [p])[..|a|] == a;
  }

  /** Entry i of a list, if there is one. */
  function EntryAt(own: seq<H2DBucket>, i: nat): seq<H2DBucket> {
    if i < |own| then [own[i]] else []
  }

  lemma {:induction false} RoundOfRank(ranks: seq<nat>, buckets: seq<Assigned>, i: nat, rank: nat)
    requires forall j, k :: 0 <= j < k < |ranks| ==> ranks[j] != ranks[k]
    ensures EntriesOf(RoundOf(ranks, buckets, i), rank)
            == if rank in ranks then EntryAt(EntriesOf(buckets, rank), i) else []
  {
    if ranks != [] {
      var n := |ranks| - 1;
      var own, before := EntriesOf(buckets, ranks[n]), RoundOf(ranks[..n], buckets, i);
      RoundOfRank(ranks[..n], buckets, i, rank);
      assert ranks == ranks[..n] + [ranks[n]];
      if i < |own| {
        EntriesAppend(before, Put(ranks[n], own[i]), rank);
      } else {
        assert RoundOf(ranks, buckets, i) == before;
      }
    }
  }

  lemma RoundsNext(buckets: seq<Assigned>, i: nat, next: nat, rank: nat)
    requires next == i + 1
    ensures EntriesOf(RoundsBefore(buckets, next), rank)
            == EntriesOf(RoundsBefore(buckets, i), rank)
               + if rank in Groups(buckets) then EntryAt(EntriesOf(buckets, rank), i) else []
  {
    var before, round := RoundsBefore(buckets, i), RoundOf(Groups(buckets), buckets, i);
    RoundsUnfold(buckets, i, next);
    GroupsDistinct(buckets);
    RoundOfRank(Groups(buckets), buckets, i, rank);
    EntriesConcat(before, round, rank);
  }

  lemma RoundsUnfold(buckets: seq<Assigned>, i: nat, next: nat)
    requires next == i + 1
    ensures RoundsBefore(buckets, next) == RoundsBefore(buckets, i) + RoundOf(Groups(buckets), buckets, i)
  {
  }

  function Take(own: seq<H2DBucket>, i: nat): seq<H2DBucket> {
    if i < |own| then own[..i] else own
  }

  lemma TakeNext(own: seq<H2DBucket>, i: nat, next: nat)
    requires next == i + 1
    ensures Take(own, next) == Take(own, i) + EntryAt(own, i)
  {
  }

  predicate RoundsTake(buckets: seq<Assigned>, i: nat, rank: nat) {
    EntriesOf(RoundsBefore(buckets, i), rank)
        == if rank in Groups(buckets) then Take(EntriesOf(buckets, rank), i) else []
  }

  lemma RoundsTakeNext(buckets: seq<Assigned>, i: nat, next: nat, rank: nat)
    requires next == i + 1 && RoundsTake(buckets, i, rank)
    ensures RoundsTake(buckets, next, rank)
  {
    RoundsNext(buckets, i, next, rank);
    TakeNext(EntriesOf(buckets, rank), i, next);
  }

  lemma RoundsTakeNone(buckets: seq<Assigned>, rank: nat)
    ensures RoundsTake(buckets, 0, rank)
  {
    assert Take(EntriesOf(buckets, rank), 0) == [];
  }

  lemma RoundsOfRank(buckets: seq<Assigned>, i: nat, rank: nat)
    ensures RoundsTake(buckets, i, rank)
  {
    RoundsTakeNone(buckets, rank);
    for k := 0 to i
      invariant RoundsTake(buckets, k, rank)
    {
      RoundsTakeNext(buckets, k, k + 1, rank);
    }
  }

  lemma {:induction false} NotAGroup(buckets: seq<Assigned>, rank: nat)
    requires rank !in Groups(buckets)
    ensures EntriesOf(buckets, rank) == []
  {
    if buckets != [] {
      NotAGroup(buckets[..|buckets| - 1], rank);
    }
  }

  lemma {:induction false} MaxLenBounds(ranks: seq<nat>, buckets: seq<Assigned>, rank: nat)
    requires rank in ranks
    ensures |EntriesOf(buckets, rank)| <= MaxLen(ranks, buckets)
  {
    var n := |ranks| - 1;
    if rank != ranks[n] {
      MaxLenBounds(ranks[..n], buckets, rank);
    }
  }

  /** Each rank broadcasts each of its buckets exactly once, in order, and nothing else. */
  lemma BroadcastOnceInOrder(buckets: seq<Assigned>, rank: nat)
    ensures EntriesOf(Broadcasts(buckets), rank) == EntriesOf(buckets, rank)
  {
    RoundsOfRank(buckets, MaxLen(Groups(buckets), buckets), rank);
    if rank in Groups(buckets) {
      MaxLenBounds(Groups(buckets), buckets, rank);
    } else {
      NotAGroup(buckets, rank);
    }
  }

  // ---------- what is yielded ----------

  function TensorOf(item: Item, bytes: seq<byte>): Yielded {
    Yielded(item.name, if item.offset + item.size <= |bytes| then bytes[item.offset..item.offset + item.size] else [])
  }

  /** The first n tensors. */
  function TensorsUpTo(items: seq<Item>, n: nat, bytes: seq<byte>): seq<Yielded>
    requires n <= |items|
  {
    seq(n, i requires 0 <= i < n => TensorOf(items[i], bytes))
  }

  function TensorsOf(items: seq<Item>, bytes: seq<byte>): seq<Yielded> {
    TensorsUpTo(items, |items|, bytes)
  }

  /** Tensor i has its own name and exactly its own bytes of the bucket. */
  lemma TensorAt(b: H2DBucket, i: nat)
    requires WellFormed(b, |b.bytes|) && i < |b.items|
    ensures |TensorsOf(b.items, b.bytes)| == |b.items|
    ensures var item, t := b.items[i], TensorsOf(b.items, b.bytes)[i];
            t.name == item.name && |t.bytes| == item.size
            && forall k :: 0 <= k < item.size ==> t.bytes[k] == b.bytes[item.offset + k]
  {
  }

  /** The tensors of all buckets, each as it was broadcast. */
  function AllTensors(broadcasts: seq<Assigned>): seq<Yielded> {
    if broadcasts == [] then [] else
      var b := broadcasts[|broadcasts| - 1].entry;
      AllTensors(broadcasts[..|broadcasts| - 1]) + TensorsOf(b.items, b.bytes)
  }

  lemma TensorsPrefix(items: seq<Item>, n: nat, m: nat, bytes: seq<byte>)
    requires n <= m <= |items|
    ensures TensorsUpTo(items, n, bytes) <= TensorsUpTo(items, m, bytes)
  {
    assert TensorsUpTo(items, m, bytes)[..n] == TensorsUpTo(items, n, bytes);
  }

  lemma {:induction false} AllTensorsPrefix(a: seq<Assigned>, b: seq<Assigned>)
    requires a <= b
    ensures AllTensors(a) <= AllTensors(b)
  {
    if |a| < |b| {
      AllTensorsPrefix(a, b[..|b| - 1]);
    } else {
      assert a == b;
    }
  }

  predicate CanView(item: Item) {
    WholeItems(item.offset, item.itemsize)
  }

  /** The view of item i in the half that starts at `base` begins at a whole item. */
  predicate AlignedAt(b: H2DBucket, base: nat, i: nat)
    requires i < |b.items|
  {
    CanView(Shifted(b.items[i], base))
  }

  predicate AlignedItems(b: H2DBucket, base: nat) {
    forall i :: 0 <= i < |b.items| ==> AlignedAt(b, base, i)
  }

  predicate AllAligned(broadcasts: seq<Assigned>, bucketSize: nat) {
    forall n :: 0 <= n < |broadcasts| ==> AlignedItems(broadcasts[n].entry, Half(n, bucketSize))
  }

  /** The half that starts at `base` holds the bytes of a bucket. */
  predicate Holds(buffer: seq<byte>, base: nat, bytes: seq<byte>) {
    base + |bytes| <= |buffer| && buffer[base..base + |bytes|] == bytes
  }

  predicate AlignedFrom(b: H2DBucket, base: nat, lo: nat, hi: nat)
    requires hi <= |b.items|
  {
    forall i :: lo <= i < hi ==> AlignedAt(b, base, i)
  }

  /** Items up to hi were yielded, if the views of those from lo on succeed. */
  predicate IsYielded(r: Received, b: H2DBucket, base: nat, lo: nat, hi: nat)
    requires hi <= |b.items|
  {
    && (r.ok <==> AlignedFrom(b, base, lo, hi))
    && (r.ok ==> r.out == TensorsUpTo(b.items, hi, b.bytes))
    && r.out <= TensorsUpTo(b.items, hi, b.bytes)
  }

  lemma StopsAt(b: H2DBucket, base: nat, lo: nat, i: nat, hi: nat)
    requires lo <= i < hi <= |b.items| && !AlignedAt(b, base, i)
    ensures IsYielded(Received(false, TensorsUpTo(b.items, i, b.bytes)), b, base, lo, hi)
  {
    TensorsPrefix(b.items, i, hi, b.bytes);
  }

  /** Yields items lo..hi of the bucket in the half that starts at `base`, up to the
      first whose view fails. */
  method YieldItems(buffer: seq<byte>, base: nat, b: H2DBucket, lo: nat, hi: nat, before: seq<Yielded>)
    returns (r: Received)
    requires lo <= hi <= |b.items| && WellFormed(b, |b.bytes|) && Holds(buffer, base, b.bytes)
    requires before == TensorsUpTo(b.items, lo, b.bytes)
    ensures IsYielded(r, b, base, lo, hi)
  {
    var out := before;
    for i := lo to hi
      invariant out == TensorsUpTo(b.items, i, b.bytes) && AlignedFrom(b, base, lo, i)
    {
      var item := Shifted(b.items[i], base);
      if !CanView(item) {
        StopsAt(b, base, lo, i, hi);
        return Received(false, out);
      }
      ShiftedTensor(buffer, base, b.bytes, b.items[i]);
      out := out + [TensorOf(item, buffer)];
    }
    return Received(true, out);
  }

  /** The item as placed in the half that starts at `base`. */
  function Shifted(item: Item, base: nat): Item {
    item.(offset := item.offset + base)
  }

  /** A tensor read from its half is the tensor of the bucket. */
  lemma ShiftedTensor(buffer: seq<byte>, base: nat, bytes: seq<byte>, item: Item)
    requires Holds(buffer, base, bytes) && item.offset + item.size <= |bytes|
    ensures TensorOf(Shifted(item, base), buffer) == TensorOf(item, bytes)
  {
    SliceOfSlice(buffer, base, base + |bytes|, item.offset, item.offset + item.size);
  }

  lemma HoldsKept(before: seq<byte>, after: seq<byte>, base: nat, bytes: seq<byte>, at: nat, written: seq<byte>)
    requires Holds(before, base, bytes) && at + |written| <= |before|
    requires after == before[..at] + written + before[at + |written|..]
    requires base + |bytes| <= at || at + |written| <= base
    ensures Holds(after, base, bytes)
  {
    assert forall k :: base <= k < base + |bytes| ==> after[k] == before[k];
  }

  /** The start of the half used by broadcast g. */
  function Half(g: nat, bucketSize: nat): nat {
    if g % 2 == 0 then 0 else bucketSize
  }

  /** Yields the previous bucket from its half while the next one arrives, after some
      number of yields, in the other. */
  method YieldWhileReceiving(buffer: array<byte>, bucketSize: nat, gidx: nat, previous: H2DBucket, next: H2DBucket)
    returns (r: Received)
    requires gidx > 0 && buffer.Length == 2 * bucketSize && WellFormed(previous, bucketSize)
    requires WellFormed(next, bucketSize)
    requires Holds(buffer[..], Half(gidx - 1, bucketSize), previous.bytes)
    modifies buffer
    ensures IsYielded(r, previous, Half(gidx - 1, bucketSize), 0, |previous.items|)
    ensures r.ok ==> Holds(buffer[..], Half(gidx, bucketSize), next.bytes)
  {
    var base := Half(gidx - 1, bucketSize);
    var arrival: nat :| arrival <= |previous.items|;
    r := YieldItems(buffer[..], base, previous, 0, arrival, []);
    if r.ok {
      Land(buffer, Half(gidx, bucketSize), next.bytes, base, previous.bytes);
      r := YieldItems(buffer[..], base, previous, arrival, |previous.items|, r.out);
    } else {
      TensorsPrefix(previous.items, arrival, |previous.items|, previous.bytes);
    }
  }

  /** A broadcast lands in one half and leaves the other as it is. */
  method Land(buffer: array<byte>, at: nat, bytes: seq<byte>, ghost base: nat, ghost kept: seq<byte>)
    requires at + |bytes| <= buffer.Length && Holds(buffer[..], base, kept)
    requires base + |kept| <= at || at + |bytes| <= base
    modifies buffer
    ensures Holds(buffer[..], base, kept) && Holds(buffer[..], at, bytes)
  {
    ghost var before := buffer[..];
    CopyInto(buffer, at, bytes);
    HoldsKept(before, buffer[..], base, kept, at, bytes);
  }

  /** The loop's variables: the number of broadcasts so far, the last one's bucket,
      which is the next to be yielded, and what has been yielded. */
  datatype Receiving = Receiving(gidx: nat, metadata: Option<H2DBucket>, out: seq<Yielded>)

  ghost predicate After(s: Receiving, buffer: seq<byte>, bucketSize: nat, broadcasts: seq<Assigned>) {
    && s.gidx == |broadcasts| && |buffer| == 2 * bucketSize
    && if broadcasts == [] then s.metadata.None? && s.out == [] else
         var n := |broadcasts| - 1;
         && s.metadata == Some(broadcasts[n].entry) && s.out == AllTensors(broadcasts[..n])
         && AllAligned(broadcasts[..n], bucketSize)
         && WellFormed(broadcasts[n].entry, bucketSize) && Holds(buffer, Half(n, bucketSize), broadcasts[n].entry.bytes)
  }

  /** The view of some tensor failed, after all before it were yielded. */
  predicate Failed(out: seq<Yielded>, bucketSize: nat, broadcasts: seq<Assigned>) {
    !AllAligned(broadcasts, bucketSize) && out <= AllTensors(broadcasts)
  }

  lemma FailedBefore(out: seq<Yielded>, bucketSize: nat, broadcasts: seq<Assigned>, all: seq<Assigned>)
    requires Failed(out, bucketSize, broadcasts) && broadcasts <= all
    ensures Failed(out, bucketSize, all)
  {
    AllTensorsPrefix(broadcasts, all);
    var n :| 0 <= n < |broadcasts| && !AlignedItems(broadcasts[n].entry, Half(n, bucketSize));
    assert all[n] == broadcasts[n];
  }

  lemma AlignedAppend(broadcasts: seq<Assigned>, bucketSize: nat)
    requires broadcasts != []
    ensures var n := |broadcasts| - 1;
            AllAligned(broadcasts, bucketSize)
            <==> AllAligned(broadcasts[..n], bucketSize) && AlignedItems(broadcasts[n].entry, Half(n, bucketSize))
  {
    var n := |broadcasts| - 1;
    assert forall k :: 0 <= k < n ==> broadcasts[..n][k] == broadcasts[k];
  }

  lemma YieldedLast(broadcasts: seq<Assigned>, bucketSize: nat, before: seq<Yielded>, r: Received)
    requires broadcasts != [] && before == AllTensors(broadcasts[..|broadcasts| - 1])
    requires AllAligned(broadcasts[..|broadcasts| - 1], bucketSize)
    requires var n := |broadcasts| - 1;
             IsYielded(r, broadcasts[n].entry, Half(n, bucketSize), 0, |broadcasts[n].entry.items|)
    ensures r.ok <==> AllAligned(broadcasts, bucketSize)
    ensures r.ok ==> before + r.out == AllTensors(broadcasts)
    ensures before + r.out <= AllTensors(broadcasts)
  {
    AlignedAppend(broadcasts, bucketSize);
  }

  method ReceiveBucket(s: Receiving, b: Assigned, buffer: array<byte>, bucketSize: nat, ghost broadcasts: seq<Assigned>)
    returns (ok: bool, s': Receiving)
    requires After(s, buffer[..], bucketSize, broadcasts) && WellFormed(b.entry, bucketSize)
    modifies buffer
    ensures ok ==> After(s', buffer[..], bucketSize, broadcasts + [b])
    ensures !ok ==> Failed(s'.out, bucketSize, broadcasts)
  {
    assert (broadcasts + [b])[..|broadcasts|] == broadcasts;
    if s.gidx == 0 {
      CopyInto(buffer, 0, b.entry.bytes);
      return true, Receiving(1, Some(b.entry), []);
    }
    var r := YieldWhileReceiving(buffer, bucketSize, s.gidx, s.metadata.value, b.entry);
    YieldedLast(broadcasts, bucketSize, s.out, r);
    return r.ok, Receiving(s.gidx + 1, Some(b.entry), s.out + r.out);
  }

  // ---------- the loop ----------

  /** An item of the insertion-ordered dictionary of lists. */
  predicate IsGrouping(lists: seq<Queue<nat, H2DBucket>>, buckets: seq<Assigned>) {
    && |lists| == |Groups(buckets)|
    && forall i :: 0 <= i < |lists| ==> lists[i] == Queue(Groups(buckets)[i], EntriesOf(buckets, Groups(buckets)[i]))
  }

  lemma NewGroup(buckets: seq<Assigned>, b: Assigned)
    ensures Groups(buckets + [b]) == if b.group in Groups(buckets) then Groups(buckets) else Groups(buckets) + [b.group]
    ensures forall g :: EntriesOf(buckets + [b], g) == EntriesOf(buckets, g) + if g == b.group then [b.entry] else []
  {
    assert (buckets + [b])[..|buckets|] == buckets;
  }

  /** A bucket goes to the end of the list of its receiver, which is a new last list at
      its first bucket. */
  method AddToList(lists: seq<Queue<nat, H2DBucket>>, b: Assigned, ghost buckets: seq<Assigned>)
    returns (lists': seq<Queue<nat, H2DBucket>>)
    requires IsGrouping(lists, buckets)
    ensures IsGrouping(lists', buckets + [b])
  {
    NewGroup(buckets, b);
    GroupsDistinct(buckets);
    var i: nat := 0;
    while i < |lists| && lists[i].group != b.group
      invariant i <= |lists| && forall j :: 0 <= j < i ==> Groups(buckets)[j] != b.group
    {
      i := i + 1;
    }
    if i < |lists| {
      lists' := lists[i := Queue(b.group, lists[i].entries + [b.entry])];
    } else {
      NotAGroup(buckets, b.group);
      lists' := lists + [Queue(b.group, [b.entry])];
    }
  }

  /** buckets_by_receiver_rank */
  method GroupByReceiver(buckets: seq<Assigned>) returns (lists: seq<Queue<nat, H2DBucket>>)
    ensures IsGrouping(lists, buckets)
  {
    lists := [];
    for i := 0 to |buckets|
      invariant IsGrouping(lists, buckets[..i])
    {
      assert buckets[..i + 1] == buckets[..i] + [buckets[i]];
      lists := AddToList(lists, buckets[i], buckets[..i]);
    }
    assert buckets[..|buckets|] == buckets;
  }

  /** max_len */
  method LongestList(lists: seq<Queue<nat, H2DBucket>>, ghost buckets: seq<Assigned>) returns (maxLen: nat)
    requires IsGrouping(lists, buckets)
    ensures maxLen == MaxLen(Groups(buckets), buckets)
  {
    maxLen := 0;
    ghost var ranks := Groups(buckets);
    for i := 0 to |lists|
      invariant maxLen == MaxLen(ranks[..i], buckets)
    {
      assert ranks[..i + 1][..i] == ranks[..i];
      maxLen := Max(maxLen, |lists[i].entries|);
    }
    assert ranks[..|ranks|] == ranks;
  }

  lemma BroadcastsSome(buckets: seq<Assigned>)
    ensures Broadcasts(buckets) != [] <==> buckets != []
  {
    if buckets != [] {
      BroadcastOnceInOrder(buckets, buckets[|buckets| - 1].group);
    }
  }

  lemma {:induction false} RoundPrefix(ranks: seq<nat>, buckets: seq<Assigned>, i: nat, g: nat)
    requires g <= |ranks|
    ensures RoundOf(ranks[..g], buckets, i) <= RoundOf(ranks, buckets, i)
  {
    if g < |ranks| {
      var n := |ranks| - 1;
      assert ranks[..n][..g] == ranks[..g];
      RoundPrefix(ranks[..n], buckets, i, g);
    } else {
      assert ranks[..g] == ranks;
    }
  }

  lemma {:induction false} RoundsPrefix(buckets: seq<Assigned>, i: nat, n: nat)
    requires i <= n
    ensures RoundsBefore(buckets, i) <= RoundsBefore(buckets, n)
  {
    if i < n {
      RoundsPrefix(buckets, i, n - 1);
    }
  }

  lemma RoundStep(broadcasts: seq<Assigned>, ranks: seq<nat>, buckets: seq<Assigned>, i: nat, g: nat)
    requires g < |ranks|
    ensures var own, done := EntriesOf(buckets, ranks[g]), broadcasts + RoundOf(ranks[..g], buckets, i);
            broadcasts + RoundOf(ranks[..g + 1], buckets, i)
                == if i < |own| then done + [Put(ranks[g], own[i])] else done
  {
    var before, own := RoundOf(ranks[..g], buckets, i), EntriesOf(buckets, ranks[g]);
    assert ranks[..g + 1][..g] == ranks[..g];
    if i < |own| {
      assert broadcasts + (before + [Put(ranks[g], own[i])]) == broadcasts + before + [Put(ranks[g], own[i])];
    }
  }

  lemma FailedInRound(out: seq<Yielded>, bucketSize: nat, broadcasts: seq<Assigned>, buckets: seq<Assigned>, i: nat,
                      g: nat, done: seq<Assigned>)
    requires g <= |Groups(buckets)| && done == broadcasts + RoundOf(Groups(buckets)[..g], buckets, i)
    requires Failed(out, bucketSize, done)
    ensures Failed(out, bucketSize, broadcasts + RoundOf(Groups(buckets), buckets, i))
  {
    RoundPrefix(Groups(buckets), buckets, i, g);
    FailedBefore(out, bucketSize, done, broadcasts + RoundOf(Groups(buckets), buckets, i));
  }

  /** One round: bucket i of every rank that has so many. */
  method ReceiveRound(s: Receiving, lists: seq<Queue<nat, H2DBucket>>, i: nat, buffer: array<byte>, bucketSize: nat,
                      ghost buckets: seq<Assigned>, ghost broadcasts: seq<Assigned>)
    returns (ok: bool, s': Receiving)
    requires IsGrouping(lists, buckets) && AllWellFormed(buckets, bucketSize)
    requires After(s, buffer[..], bucketSize, broadcasts)
    modifies buffer
    ensures ok ==> After(s', buffer[..], bucketSize, broadcasts + RoundOf(Groups(buckets), buckets, i))
    ensures !ok ==> Failed(s'.out, bucketSize, broadcasts + RoundOf(Groups(buckets), buckets, i))
  {
    ok, s' := true, s;
    ghost var ranks := Groups(buckets);
    ghost var done := broadcasts;
    for g := 0 to |lists|
      invariant ok && After(s', buffer[..], bucketSize, done) && done == broadcasts + RoundOf(ranks[..g], buckets, i)
    {
      RoundStep(broadcasts, ranks, buckets, i, g);
      var entries := lists[g].entries;
      if i < |entries| {
        EntryWellFormed(buckets, ranks[g], i, bucketSize);
        var b := Put(lists[g].group, entries[i]);
        ok, s' := ReceiveBucket(s', b, buffer, bucketSize, done);
        if !ok {
          FailedInRound(s'.out, bucketSize, broadcasts, buckets, i, g, done);
          return;
        }
        done := done + [b];
      }
    }
    assert ranks[..|ranks|] == ranks;
  }

  lemma {:induction false} EntryWellFormed(buckets: seq<Assigned>, rank: nat, i: nat, bucketSize: nat)
    requires AllWellFormed(buckets, bucketSize) && i < |EntriesOf(buckets, rank)|
    ensures WellFormed(EntriesOf(buckets, rank)[i], bucketSize)
  {
    var n := |buckets| - 1;
    if i < |EntriesOf(buckets[..n], rank)| {
      EntryWellFormed(buckets[..n], rank, i, bucketSize);
    } else {
      assert WellFormed(buckets[n].entry, bucketSize);
    }
  }

  /** Yields every tensor of every bucket, from the half it was broadcast into and
      before that half is used again, up to the first whose view fails. It also fails
      when there is no bucket. */
  method ReceiveTensors(buckets: seq<Assigned>, buffer: array<byte>, bucketSize: nat) returns (r: Received)
    requires AllWellFormed(buckets, bucketSize) && buffer.Length == 2 * bucketSize
    modifies buffer
    ensures r.ok <==> buckets != [] && AllAligned(Broadcasts(buckets), bucketSize)
    ensures r.ok ==> r.out == AllTensors(Broadcasts(buckets))
    ensures r.out <= AllTensors(Broadcasts(buckets))
  {
    var lists := GroupByReceiver(buckets);
    var maxLen := LongestList(lists, buckets);
    var s := Receiving(0, None, []);
    BroadcastsSome(buckets);
    for i := 0 to maxLen
      invariant After(s, buffer[..], bucketSize, RoundsBefore(buckets, i))
    {
      RoundsUnfold(buckets, i, i + 1);
      var ok;
      ok, s := ReceiveRound(s, lists, i, buffer, bucketSize, buckets, RoundsBefore(buckets, i));
      if !ok {
        RoundsPrefix(buckets, i + 1, maxLen);
        FailedBefore(s.out, bucketSize, RoundsBefore(buckets, i + 1), Broadcasts(buckets));
        return Received(false, s.out);
      }
    }
    r := YieldLast(s, buffer[..], bucketSize, Broadcasts(buckets));
  }

  /** After the loop: the last bucket is yielded; there must have been one. */
  method YieldLast(s: Receiving, buffer: seq<byte>, bucketSize: nat, ghost broadcasts: seq<Assigned>)
    returns (r: Received)
    requires After(s, buffer, bucketSize, broadcasts)
    ensures r.ok <==> broadcasts != [] && AllAligned(broadcasts, bucketSize)
    ensures r.ok ==> r.out == AllTensors(broadcasts)
    ensures r.out <= AllTensors(broadcasts)
  {
    if s.metadata.None? {
      return Received(false, []);
    }
    var b := s.metadata.value;
    r := YieldItems(buffer, Half(s.gidx - 1, bucketSize), b, 0, |b.items|, []);
    YieldedLast(broadcasts, bucketSize, s.out, r);
    r := Received(r.ok, s.out + r.out);
  }

  // ---------- when the views succeed ----------

  /** The second half begins at a whole item. */
  lemma HalfAligned(itemsize: nat, bucketSize: nat, n: nat, offset: nat)
    requires WholeItems(bucketSize, itemsize)
    ensures WholeItems(offset + Half(n, bucketSize), itemsize) <==> WholeItems(offset, itemsize)
  {
    if itemsize > 1 && n % 2 == 1 {
      var q, k, r := bucketSize / itemsize, offset / itemsize, offset % itemsize;
      DivMod(bucketSize, itemsize, q, 0);
      DivMod(offset, itemsize, k, r);
      Distribute(q, k, itemsize);
      ModOf(q + k, itemsize, r);
    }
  }

  /** When the item sizes divide the bucket size, the views succeed in either half if and
      only if every tensor lies at a multiple of its item size in its bucket. */
  lemma AllAlignedIff(broadcasts: seq<Assigned>, bucketSize: nat)
    requires forall n, i :: 0 <= n < |broadcasts| && 0 <= i < |broadcasts[n].entry.items| ==>
               WholeItems(bucketSize, broadcasts[n].entry.items[i].itemsize)
    ensures AllAligned(broadcasts, bucketSize)
            <==> forall n :: 0 <= n < |broadcasts| ==> AlignedItems(broadcasts[n].entry, 0)
  {
    forall n, i | 0 <= n < |broadcasts| && 0 <= i < |broadcasts[n].entry.items|
      ensures AlignedAt(broadcasts[n].entry, Half(n, bucketSize), i) <==> AlignedAt(broadcasts[n].entry, 0, i)
    {
      var item := broadcasts[n].entry.items[i];
      HalfAligned(item.itemsize, bucketSize, n, item.offset);
    }
  }
}
