/** The sender's packing in the Mooncake engine
    (verl/checkpoint_engine/mooncake_checkpoint_engine.py, send_weights) and what the
    chain makes of it: whole tensors, never split, described by name.

    A message stands for the metadata and what is in the half-buffer when it is sent. */
module MooncakeSender {
  import opened Buckets
  import opened MooncakeChain
  import opened MooncakeProgress
  import opened MooncakeSafety
  import opened OrderedDicts
  import opened Sequences
  import opened WeightChunks
  import opened Wrappers

  // ---------- tensors as chunks ----------

  function WholeMeta(w: Named): TensorMeta {
    TensorMeta(w.name, w.tensor.shape, w.tensor.dtype, 0, |w.tensor.bytes|)
  }

  function WholeChunk(w: Named): Chunk {
    Chunk(WholeMeta(w), w.tensor.bytes, 0)
  }

  function WholeChunks(weights: seq<Named>): (r: seq<Chunk>)
    ensures |r| == |weights| && forall i :: 0 <= i < |r| ==> r[i] == WholeChunk(weights[i])
  {
    seq(|weights|, i requires 0 <= i < |weights| => WholeChunk(weights[i]))
  }

  function Tensors(chunks: seq<Chunk>): (r: seq<Named>)
    ensures |r| == |chunks| && forall i :: 0 <= i < |r| ==> r[i] == TensorOf(chunks[i])
  {
    seq(|chunks|, i requires 0 <= i < |chunks| => TensorOf(chunks[i]))
  }

  function NameOf(c: Chunk): string {
    c.meta.name
  }

  function PlacedName(p: Placed): string {
    p.meta.name
  }

  // ---------- packing ----------

  /** One more chunk goes into the last bucket, or into a new one when it does not fit. */
  lemma {:induction false} PackAppend(cur: seq<Chunk>, chunks: seq<Chunk>, c: Chunk, bucketSize: nat)
    ensures var p := PackFrom(cur, chunks, bucketSize);
            && p != []
            && var n := |p| - 1;
               PackFrom(cur, chunks + [c], bucketSize)
               == if Size(p[n]) + c.meta.chunkSize > bucketSize then p + [[c]] else p[..n] + [p[n] + [c]]
    decreases chunks
  {
    if chunks == [] {
      assert chunks + [c] == [c] && [c][1..] == [];
      assert [cur][..0] == [];
    } else {
      assert (chunks + [c])[0] == chunks[0] && (chunks + [c])[1..] == chunks[1..] + [c];
      if Size(cur) + chunks[0].meta.chunkSize > bucketSize {
        PackAppend([chunks[0]], chunks[1..], c, bucketSize);
        PrependLast(cur, PackFrom([chunks[0]], chunks[1..], bucketSize), c);
      } else {
        PackAppend(cur + [chunks[0]], chunks[1..], c, bucketSize);
      }
    }
  }

  lemma PrependLast(cur: seq<Chunk>, p: seq<seq<Chunk>>, c: Chunk)
    requires p != []
    ensures var q := [cur] + p;
            && q[|q| - 1] == p[|p| - 1] && q + [[c]] == [cur] + (p + [[c]])
            && q[..|q| - 1] + [p[|p| - 1] + [c]] == [cur] + (p[..|p| - 1] + [p[|p| - 1] + [c]])
  {
  }

  /** The tensors of each bucket. */
  function Packed(weights: seq<Named>, bucketSize: nat): seq<seq<Chunk>> {
    Pack(WholeChunks(weights), bucketSize)
  }

  lemma PackedTiles(weights: seq<Named>, bucketSize: nat)
    ensures Flatten(Packed(weights, bucketSize)) == WholeChunks(weights)
  {
    var chunks := WholeChunks(weights);
    PackFromTiles([], chunks, bucketSize);
    assert [] + chunks == chunks;
  }

  lemma NextChunk(weights: seq<Named>, i: nat, sent: seq<seq<Chunk>>, cur: seq<Chunk>, bucketSize: nat)
    requires i < |weights| && sent + [cur] == Packed(weights[..i], bucketSize)
    ensures var c := WholeChunk(weights[i]);
            Packed(weights[..i + 1], bucketSize)
            == if Size(cur) + |c.bytes| > bucketSize then sent + [cur] + [[c]] else sent + [cur + [c]]
  {
    PackAppend([], WholeChunks(weights[..i]), WholeChunk(weights[i]), bucketSize);
    assert WholeChunks(weights[..i + 1]) == WholeChunks(weights[..i]) + [WholeChunk(weights[i])];
    assert (sent + [cur])[..|sent|] == sent;
  }

  // ---------- the dictionary of a bucket ----------

  lemma {:induction false} PutBelow(meta: seq<Placed>, p: Placed, offset: nat)
    requires Below(meta, offset) && p.offset + p.meta.chunkSize <= offset
    ensures Below(Put(PlacedName, meta, p), offset)
  {
    if meta != [] {
      PutBelow(meta[1..], p, offset);
    }
  }

  function ViewsFront(meta: seq<Placed>, bytes: seq<byte>, base: nat): seq<Chunk> {
    if meta == [] then [] else [View(meta[0], bytes, base)] + ViewsFront(meta[1..], bytes, base)
  }

  lemma {:induction false} ViewsAreFront(meta: seq<Placed>, bytes: seq<byte>, base: nat)
    ensures Views(meta, bytes, base) == ViewsFront(meta, bytes, base)
  {
    if meta != [] {
      ViewsAreFront(meta[1..], bytes, base);
      ViewsAt(meta, bytes, base);
      ViewsAt(meta[1..], bytes, base);
    }
  }

  lemma {:induction false} PutViews(meta: seq<Placed>, p: Placed, bytes: seq<byte>, base: nat)
    ensures ViewsFront(Put(PlacedName, meta, p), bytes, base)
            == Put(NameOf, ViewsFront(meta, bytes, base), View(p, bytes, base))
  {
    if meta != [] {
      PutViews(meta[1..], p, bytes, base);
    }
  }

  /** One tensor more in the half-buffer and in the dictionary. */
  lemma PutTensor(meta: seq<Placed>, p: Placed, bytes: seq<byte>, base: nat, w: Named, cur: seq<Chunk>)
    requires Views(meta, bytes, base) == Dict(NameOf, PlacedIn(cur, base))
    requires View(p, bytes, base) == WholeChunk(w).(at := base + Size(cur))
    ensures Views(Put(PlacedName, meta, p), bytes, base) == Dict(NameOf, PlacedIn(cur + [WholeChunk(w)], base))
  {
    ViewsPut(meta, p, bytes, base);
    PlacedPut(cur, base, w);
  }

  lemma PlacedPut(cur: seq<Chunk>, base: nat, w: Named)
    ensures Dict(NameOf, PlacedIn(cur + [WholeChunk(w)], base))
            == Put(NameOf, Dict(NameOf, PlacedIn(cur, base)), WholeChunk(w).(at := base + Size(cur)))
  {
    PlacedAppend(cur, base, WholeChunk(w));
    DictAppend(NameOf, PlacedIn(cur, base), WholeChunk(w).(at := base + Size(cur)));
  }

  lemma WriteTensor(meta: seq<Placed>, p: Placed, bytes: seq<byte>, bytes': seq<byte>, base: nat, w: Named)
    requires Below(meta, p.offset) && p.meta == WholeMeta(w) && p.offset + |w.tensor.bytes| <= |bytes|
    requires bytes' == bytes[..p.offset] + w.tensor.bytes + bytes[p.offset + |w.tensor.bytes|..]
    ensures Views(meta, bytes', base) == Views(meta, bytes, base)
    ensures View(p, bytes', base) == WholeChunk(w).(at := base + p.offset)
  {
    ViewsKept(meta, p.offset, bytes, bytes', base);
  }

  lemma ViewsPut(meta: seq<Placed>, p: Placed, bytes: seq<byte>, base: nat)
    ensures Views(Put(PlacedName, meta, p), bytes, base) == Put(NameOf, Views(meta, bytes, base), View(p, bytes, base))
  {
    ViewsAreFront(meta, bytes, base);
    PutViews(meta, p, bytes, base);
    ViewsAreFront(Put(PlacedName, meta, p), bytes, base);
  }

  // ---------- send_weights ----------

  predicate NoneFlagged(wire: seq<Bucket>) {
    forall i :: 0 <= i < |wire| ==> !wire[i].isLast
  }

  /** The messages carry these buckets, each as a dictionary, in alternating halves. */
  predicate CarriesDicts(wire: seq<Bucket>, buckets: seq<seq<Chunk>>, bucketSize: nat) {
    && |wire| == |buckets| && FullBuffers(wire, bucketSize)
    && UnpackEach(wire, Halves) == Dicts(NameOf, PlacedEach(buckets, Halves, bucketSize))
  }

  lemma OneMoreMessage(wire: seq<Bucket>, sent: seq<seq<Chunk>>, b: Bucket, cur: seq<Chunk>)
    requires CarriesDicts(wire, sent, |b.bytes|)
    requires var base := Halves.Base(|wire|, |b.bytes|); Unpack(b, base) == Dict(NameOf, PlacedIn(cur, base))
    ensures CarriesDicts(wire + [b], sent + [cur], |b.bytes|)
  {
    UnpackAllAppend(wire, b, Halves);
    PlacedEachAppend(sent, cur, Halves, |b.bytes|);
    DictsAppend(NameOf, PlacedEach(sent, Halves, |b.bytes|), PlacedIn(cur, Halves.Base(|wire|, |b.bytes|)));
  }

  /** Tensor k is the first that is too large; the buckets of those before it are out. */
  predicate StopsAt(weights: seq<Named>, k: nat, bucketSize: nat, wire: seq<Bucket>) {
    && k < |weights| && AllWithin(weights[..k], bucketSize) && |weights[k].tensor.bytes| > bucketSize
    && NoneFlagged(wire) && CarriesDicts(wire, Packed(weights[..k], bucketSize), bucketSize)
  }

  /** The assertion fires if and only if some tensor is larger than a bucket; then the
      buckets of the tensors before it were sent, none of them flagged as the last. */
  method SendWeights(weights: seq<Named>, a: array<byte>, b: array<byte>)
    returns (wire: seq<Bucket>, ok: bool, ghost stop: nat)
    requires a != b && a.Length == b.Length
    modifies a, b
    ensures ok <==> AllWithin(weights, a.Length)
    ensures ok ==> LastFlagged(wire) && CarriesDicts(wire, Packed(weights, a.Length), a.Length)
    ensures !ok ==> StopsAt(weights, stop, a.Length, wire)
  {
    wire, stop := [], 0;
    var meta: seq<Placed>, offset: nat := [], 0;
    var current, other := a, b;
    ghost var sent: seq<seq<Chunk>>, cur: seq<Chunk> := [], [];
    assert weights[..0] == [];
    for i := 0 to |weights|
      invariant {current, other} == {a, b} && current != other
      invariant IsPacking(wire, meta, offset, current[..], sent, cur)
      invariant IsPacked(weights, i, sent, cur, a.Length)
    {
      var w := weights[i];
      var n := |w.tensor.bytes|;
      NextPacked(weights, i, sent, cur, a.Length);
      if offset + n > a.Length {
        SendBucket(wire, meta, offset, current[..], sent, cur, false, other[..]);
        wire := wire + [Bucket(meta, false, current[..])];
        sent, cur := sent + [cur], [];
        current, other := other, current;
        meta, offset := [], 0;
      }
      if offset + n > a.Length {
        return wire, false, i;
      }
      meta := AddTensor(current, meta, offset, w, cur, wire, sent);
      offset := offset + n;
      cur := cur + [WholeChunk(w)];
    }
    SendBucket(wire, meta, offset, current[..], sent, cur, true, other[..]);
    wire := wire + [Bucket(meta, true, current[..])];
    assert weights[..|weights|] == weights;
    ok := true;
  }

  /** The buckets of the first i tensors. */
  predicate IsPacked(weights: seq<Named>, i: nat, sent: seq<seq<Chunk>>, cur: seq<Chunk>, bucketSize: nat) {
    i <= |weights| && AllWithin(weights[..i], bucketSize) && sent + [cur] == Packed(weights[..i], bucketSize)
  }

  lemma NextPacked(weights: seq<Named>, i: nat, sent: seq<seq<Chunk>>, cur: seq<Chunk>, bucketSize: nat)
    requires i < |weights| && IsPacked(weights, i, sent, cur, bucketSize)
    ensures var w := weights[i];
            |w.tensor.bytes| <= bucketSize ==>
              if Size(cur) + |w.tensor.bytes| > bucketSize
              then IsPacked(weights, i + 1, sent + [cur], [] + [WholeChunk(w)], bucketSize)
              else IsPacked(weights, i + 1, sent, cur + [WholeChunk(w)], bucketSize)
  {
    NextChunk(weights, i, sent, cur, bucketSize);
    assert [] + [WholeChunk(weights[i])] == [WholeChunk(weights[i])];
  }

  /** The next tensor goes into the half-buffer and the dictionary. */
  method AddTensor(current: array<byte>, meta: seq<Placed>, offset: nat, w: Named, ghost cur: seq<Chunk>,
                   ghost wire: seq<Bucket>, ghost sent: seq<seq<Chunk>>) returns (meta': seq<Placed>)
    requires IsPacking(wire, meta, offset, current[..], sent, cur) && offset + |w.tensor.bytes| <= current.Length
    modifies current
    ensures IsPacking(wire, meta', offset + |w.tensor.bytes|, current[..], sent, cur + [WholeChunk(w)])
  {
    ghost var before := current[..];
    CopyInto(current, offset, w.tensor.bytes);
    ghost var p := Placed(WholeMeta(w), offset);
    ghost var base := Halves.Base(|wire|, current.Length);
    WriteTensor(meta, p, before, current[..], base, w);
    PutTensor(meta, p, current[..], base, w, cur);
    PutBelow(meta, p, offset + |w.tensor.bytes|);
    SizeAppend(cur, WholeChunk(w));
    meta' := Put(PlacedName, meta, Placed(WholeMeta(w), offset));
  }

  /** The buckets sent, and the one being filled. */
  predicate IsPacking(wire: seq<Bucket>, meta: seq<Placed>, offset: nat, bytes: seq<byte>, sent: seq<seq<Chunk>>,
                      cur: seq<Chunk>) {
    var base := Halves.Base(|wire|, |bytes|);
    && NoneFlagged(wire) && CarriesDicts(wire, sent, |bytes|)
    && offset == Size(cur) <= |bytes| && Below(meta, offset)
    && Views(meta, bytes, base) == Dict(NameOf, PlacedIn(cur, base))
  }

  /** Sending the bucket: the next one starts empty, in the other half. */
  lemma SendBucket(wire: seq<Bucket>, meta: seq<Placed>, offset: nat, bytes: seq<byte>, sent: seq<seq<Chunk>>,
                   cur: seq<Chunk>, isLast: bool, other: seq<byte>)
    requires IsPacking(wire, meta, offset, bytes, sent, cur) && |other| == |bytes|
    ensures var wire' := wire + [Bucket(meta, isLast, bytes)];
            && CarriesDicts(wire', sent + [cur], |bytes|)
            && (if isLast then LastFlagged(wire') else IsPacking(wire', [], 0, other, sent + [cur], []))
  {
    OneMoreMessage(wire, sent, Bucket(meta, isLast, bytes), cur);
  }

  // ---------- what is delivered ----------

  lemma TensorsOfWhole(weights: seq<Named>, chunks: seq<Chunk>)
    requires SameChunks(chunks, WholeChunks(weights))
    ensures Tensors(chunks) == weights
  {
    forall i | 0 <= i < |weights| ensures Tensors(chunks)[i] == weights[i] {
      assert chunks[i] == WholeChunk(weights[i]).(at := chunks[i].at);
    }
  }

  /** The views of one receiver, chunk by chunk: what it yields, and why it stops. */
  function ViewAll(chunks: seq<Chunk>): Merged {
    if chunks == [] then Merged([], None)
    else if ViewError(chunks[0]).Some? then Merged([], ViewError(chunks[0]))
    else Prepend([TensorOf(chunks[0])], ViewAll(chunks[1..]))
  }

  /** The chunks have the sizes of their tensors. */
  predicate SizesRight(chunks: seq<Chunk>, bucketSize: nat) {
    forall i :: 0 <= i < |chunks| ==> |chunks[i].bytes| == chunks[i].meta.NBytes() <= bucketSize
  }

  lemma {:induction false} ViewAllIff(chunks: seq<Chunk>, bucketSize: nat)
    requires SizesRight(chunks, bucketSize)
    ensures if ViewsAligned(chunks, bucketSize) then ViewAll(chunks) == Merged(Tensors(chunks), None)
            else ViewAll(chunks).failure == Some(ViewMisaligned) && ViewAll(chunks).yielded < Tensors(chunks)
    decreases chunks
  {
    if chunks != [] {
      var c := chunks[0];
      ItemsAreWhole(Numel(c.meta.shape), c.meta.dtype.itemsize);
      ViewAllIff(chunks[1..], bucketSize);
      AlignedFirst(chunks, bucketSize);
      assert Tensors(chunks) == [TensorOf(c)] + Tensors(chunks[1..]);
    }
  }

  lemma SizesOfWhole(weights: seq<Named>, chunks: seq<Chunk>, bucketSize: nat)
    requires SameChunks(chunks, WholeChunks(weights)) && AllValid(weights) && AllWithin(weights, bucketSize)
    ensures SizesRight(chunks, bucketSize)
  {
    forall i | 0 <= i < |chunks| ensures |chunks[i].bytes| == chunks[i].meta.NBytes() <= bucketSize {
      assert chunks[i] == WholeChunk(weights[i]).(at := chunks[i].at) && weights[i].tensor.Valid();
    }
  }

  /** The names are the same wherever the chunks begin. */
  lemma {:induction false} PlacedNames(buckets: seq<seq<Chunk>>, bucketSize: nat)
    ensures NoneRepeats(NameOf, PlacedEach(buckets, Halves, bucketSize)) <==> NoneRepeats(NameOf, buckets)
  {
    if buckets != [] {
      var n := |buckets| - 1;
      var placed := PlacedEach(buckets, Halves, bucketSize);
      PlacedNames(buckets[..n], bucketSize);
      PlacedSame(buckets[..n], Halves, bucketSize);
      PlacedDistinct(buckets[n], Halves.Base(n, bucketSize));
      LastRepeats(buckets);
      LastRepeats(placed);
      assert placed[..n] == PlacedEach(buckets[..n], Halves, bucketSize);
    }
  }

  lemma LastRepeats(buckets: seq<seq<Chunk>>)
    requires buckets != []
    ensures var n := |buckets| - 1;
            NoneRepeats(NameOf, buckets) <==> NoneRepeats(NameOf, buckets[..n]) && DistinctItems(NameOf, buckets[n])
  {
    var n := |buckets| - 1;
    assert forall k :: 0 <= k < n ==> buckets[..n][k] == buckets[k];
  }

  lemma PlacedDistinct(bucket: seq<Chunk>, base: nat)
    ensures DistinctItems(NameOf, PlacedIn(bucket, base)) <==> DistinctItems(NameOf, bucket)
  {
    var placed := PlacedIn(bucket, base);
    assert forall j :: 0 <= j < |bucket| ==> NameOf(placed[j]) == NameOf(bucket[j]);
  }

  lemma BucketsDeliverIff(weights: seq<Named>, bucketSize: nat, buckets: seq<seq<Chunk>>, wire: seq<Bucket>)
    requires AllValid(weights) && AllWithin(weights, bucketSize)
    requires Flatten(buckets) == WholeChunks(weights) && CarriesDicts(wire, buckets, bucketSize)
    ensures ViewAll(UnpackAll(wire, Halves)) == Merged(weights, None)
            <==> NoneRepeats(NameOf, buckets) && PlacesAligned(buckets, Halves, bucketSize)
  {
    var placed, out := PlacedEach(buckets, Halves, bucketSize), UnpackAll(wire, Halves);
    UnpackAllFlattens(wire, Halves);
    PlacedSame(buckets, Halves, bucketSize);
    PlacedNames(buckets, bucketSize);
    DictsKeepIff(NameOf, placed);
    if NoneRepeats(NameOf, buckets) {
      assert out == Flatten(placed);
      SizesOfWhole(weights, out, bucketSize);
      ViewAllIff(out, bucketSize);
      PlacesAlignedIff(buckets, Halves, bucketSize);
      TensorsOfWhole(weights, out);
    } else {
      ViewAllYields(out);
    }
  }

  lemma {:induction false} ViewAllYields(chunks: seq<Chunk>)
    ensures |ViewAll(chunks).yielded| <= |chunks|
  {
    if chunks != [] {
      ViewAllYields(chunks[1..]);
    }
  }

  lemma DistinctNeverRepeat(weights: seq<Named>, bucketSize: nat)
    requires DistinctWeights(weights)
    ensures NoneRepeats(NameOf, Packed(weights, bucketSize))
  {
    PackedTiles(weights, bucketSize);
    DistinctBuckets(NameOf, Packed(weights, bucketSize));
  }

  /** The receivers get all tensors, in order and bit for bit, if and only if no name is
      repeated within a bucket and every tensor lies at a multiple of its item size in
      the two halves; empty tensors travel too. */
  lemma WireDeliversIff(weights: seq<Named>, bucketSize: nat, wire: seq<Bucket>)
    requires AllValid(weights) && AllWithin(weights, bucketSize)
    requires CarriesDicts(wire, Packed(weights, bucketSize), bucketSize)
    ensures ViewAll(UnpackAll(wire, Halves)) == Merged(weights, None)
            <==> && NoneRepeats(NameOf, Packed(weights, bucketSize))
                 && PlacesAligned(Packed(weights, bucketSize), Halves, bucketSize)
  {
    PackedTiles(weights, bucketSize);
    BucketsDeliverIff(weights, bucketSize, Packed(weights, bucketSize), wire);
  }

  /** From the trainer's tensors to what each receiver of the chain has yielded when
      nothing more can happen, in any interleaving from harmless slots. */
  lemma ChainDeliversIff(weights: seq<Named>, bucketSize: nat, wire: seq<Bucket>, left: seq<Flags>, s: Chain, i: nat)
    requires AllValid(weights) && AllWithin(weights, bucketSize)
    requires LastFlagged(wire) && CarriesDicts(wire, Packed(weights, bucketSize), bucketSize)
    requires AllHarmless(wire, left) && Reachable(wire, left, s) && Stuck(wire, s) && 0 < i < |left|
    ensures |s.ranks| == |left|
    ensures ViewAll(s.ranks[i].out) == Merged(weights, None)
            <==> && NoneRepeats(NameOf, Packed(weights, bucketSize))
                 && PlacesAligned(Packed(weights, bucketSize), Halves, bucketSize)
  {
    StuckOnlyWhenDone(wire, left, s);
    WireDeliversIff(weights, bucketSize, wire);
  }

  // ---------- one type ----------

  lemma WholeOfWhole(weights: seq<Named>, itemsize: nat)
    requires AllValid(weights) && OneItemSize(weights, itemsize)
    ensures AllWhole(WholeChunks(weights), itemsize)
  {
    forall i | 0 <= i < |weights| ensures IsWhole(WholeChunk(weights[i]), itemsize) {
      assert weights[i].tensor.Valid();
      ItemsAreWhole(Numel(weights[i].tensor.shape), itemsize);
    }
  }

  /** A bucket is opened for a tensor. */
  lemma {:induction false} OpenedFor(cur: seq<Chunk>, chunks: seq<Chunk>, bucketSize: nat)
    ensures var p := PackFrom(cur, chunks, bucketSize);
            p != [] && cur <= p[0] && forall k :: 0 < k < |p| ==> p[k] != []
    decreases chunks
  {
    if chunks != [] {
      if Size(cur) + chunks[0].meta.chunkSize > bucketSize {
        OpenedFor([chunks[0]], chunks[1..], bucketSize);
      } else {
        OpenedFor(cur + [chunks[0]], chunks[1..], bucketSize);
      }
    }
  }

  /** Tensors of one item size, as after the cast to the rollout's type, can be viewed if
      and only if they need a single bucket or the item size divides the bucket size,
      where the second half begins. */
  lemma OneTypeAlignedIff(weights: seq<Named>, bucketSize: nat, itemsize: nat)
    requires AllValid(weights) && AllWithin(weights, bucketSize) && OneItemSize(weights, itemsize)
    ensures PlacesAligned(Packed(weights, bucketSize), Halves, bucketSize)
            <==> |Packed(weights, bucketSize)| <= 1 || WholeItems(bucketSize, itemsize)
  {
    var buckets := Packed(weights, bucketSize);
    WholeOfWhole(weights, itemsize);
    PackFromWhole([], WholeChunks(weights), bucketSize, itemsize);
    OpenedFor([], WholeChunks(weights), bucketSize);
    if |buckets| <= 1 || WholeItems(bucketSize, itemsize) {
      forall k | 0 <= k < |buckets| ensures BucketAligned(buckets[k], Halves.Base(k, bucketSize), bucketSize) {
        WholeBucketAligned(buckets[k], Halves.Base(k, bucketSize), bucketSize, itemsize);
      }
    } else {
      SecondBegins(weights, bucketSize, itemsize);
    }
  }

  lemma SecondBegins(weights: seq<Named>, bucketSize: nat, itemsize: nat)
    requires AllValid(weights) && AllWithin(weights, bucketSize) && OneItemSize(weights, itemsize)
    requires |Packed(weights, bucketSize)| > 1 && !WholeItems(bucketSize, itemsize)
    ensures !BucketAligned(Packed(weights, bucketSize)[1], Halves.Base(1, bucketSize), bucketSize)
  {
    var second := Packed(weights, bucketSize)[1];
    OpenedFor([], WholeChunks(weights), bucketSize);
    PackedTiles(weights, bucketSize);
    InFlatten(Packed(weights, bucketSize), second[0]);
    var i :| 0 <= i < |weights| && WholeChunks(weights)[i] == second[0];
    assert weights[i].tensor.Valid() && second[..0] == [];
    assert PlacedAt(second, bucketSize, 0).at == bucketSize;
    assert !ViewAligned(PlacedAt(second, bucketSize, 0), bucketSize);
  }
}
