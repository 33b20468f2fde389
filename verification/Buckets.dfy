/** Packing chunks into fixed-size buckets: the common part of the NCCL and NIXL
    `send_weights` loops (verl/checkpoint_engine/nccl_checkpoint_engine.py,
    nixl_checkpoint_engine.py). */
module Buckets {
  import opened Arithmetic
  import opened Sequences
  import opened WeightChunks
  import opened Wrappers

  /** A chunk's description with its offset in the bucket. */
  datatype Placed = Placed(meta: TensorMeta, offset: nat)

  /** One message: the insertion-ordered bucket_meta, the is_last flag and the whole buffer. */
  datatype Bucket = Bucket(meta: seq<Placed>, isLast: bool, bytes: seq<byte>)

  /** The two alternating buffers are two allocations or the two halves of one. */
  datatype Buffers = Separate | Halves {
    /** Where the buffer of message k, of n bytes, begins in its allocation. */
    function Base(k: nat, n: nat): nat {
      if Halves? && k % 2 == 1 then n else 0
    }
  }

  /** bytes[lo : hi] of the source language, which is cut off at the end. */
  function Slice(bytes: seq<byte>, lo: nat, hi: nat): seq<byte>
    requires lo <= hi
  {
    bytes[Min(lo, |bytes|)..Min(hi, |bytes|)]
  }

  function View(p: Placed, bytes: seq<byte>, base: nat): Chunk {
    Chunk(p.meta, Slice(bytes, p.offset, p.offset + p.meta.chunkSize), base + p.offset)
  }

  function Views(meta: seq<Placed>, bytes: seq<byte>, base: nat): seq<Chunk> {
    if meta == [] then [] else Views(meta[..|meta| - 1], bytes, base) + [View(meta[|meta| - 1], bytes, base)]
  }

  lemma ViewsAppend(meta: seq<Placed>, bytes: seq<byte>, base: nat, p: Placed)
    ensures Views(meta + [p], bytes, base) == Views(meta, bytes, base) + [View(p, bytes, base)]
  {
    assert (meta + [p])[..|meta|] == meta;
  }

  lemma ViewsPrefix(meta: seq<Placed>, j: nat, bytes: seq<byte>, base: nat)
    requires j < |meta|
    ensures Views(meta[..j + 1], bytes, base) == Views(meta[..j], bytes, base) + [View(meta[j], bytes, base)]
  {
    assert meta[..j + 1] == meta[..j] + [meta[j]];
    ViewsAppend(meta[..j], bytes, base, meta[j]);
  }

  lemma {:induction false} ViewsAt(meta: seq<Placed>, bytes: seq<byte>, base: nat)
    ensures |Views(meta, bytes, base)| == |meta|
    ensures forall k :: 0 <= k < |meta| ==> Views(meta, bytes, base)[k] == View(meta[k], bytes, base)
  {
    if meta != [] {
      ViewsAt(meta[..|meta| - 1], bytes, base);
    }
  }

  /** Every chunk lies below `offset`. */
  predicate Below(meta: seq<Placed>, offset: nat) {
    forall k :: 0 <= k < |meta| ==> meta[k].offset + meta[k].meta.chunkSize <= offset
  }

  /** Writing at `offset` leaves the chunks below it as they are. */
  lemma {:induction false} ViewsKept(meta: seq<Placed>, offset: nat, bytes: seq<byte>, bytes': seq<byte>, base: nat)
    requires Below(meta, offset) && offset <= |bytes| && offset <= |bytes'| && bytes[..offset] == bytes'[..offset]
    ensures Views(meta, bytes, base) == Views(meta, bytes', base)
  {
    if meta != [] {
      var n := |meta| - 1;
      ViewsKept(meta[..n], offset, bytes, bytes', base);
      var lo, hi := meta[n].offset, meta[n].offset + meta[n].meta.chunkSize;
      assert bytes[lo..hi] == bytes[..offset][lo..hi];
      assert bytes'[lo..hi] == bytes'[..offset][lo..hi];
    }
  }

  /** What a receiver yields for one bucket. */
  function Unpack(b: Bucket, base: nat): seq<Chunk> {
    Views(b.meta, b.bytes, base)
  }

  function UnpackEach(wire: seq<Bucket>, bufs: Buffers): seq<seq<Chunk>> {
    if wire == [] then [] else
      var n := |wire| - 1;
      UnpackEach(wire[..n], bufs) + [Unpack(wire[n], bufs.Base(n, |wire[n].bytes|))]
  }

  function UnpackAll(wire: seq<Bucket>, bufs: Buffers): seq<Chunk> {
    if wire == [] then [] else
      var n := |wire| - 1;
      UnpackAll(wire[..n], bufs) + Unpack(wire[n], bufs.Base(n, |wire[n].bytes|))
  }

  lemma UnpackAllAppend(wire: seq<Bucket>, b: Bucket, bufs: Buffers)
    ensures var base := bufs.Base(|wire|, |b.bytes|);
            && UnpackAll(wire + [b], bufs) == UnpackAll(wire, bufs) + Unpack(b, base)
            && UnpackEach(wire + [b], bufs) == UnpackEach(wire, bufs) + [Unpack(b, base)]
  {
    assert (wire + [b])[..|wire|] == wire;
  }

  lemma {:induction false} UnpackAllFlattens(wire: seq<Bucket>, bufs: Buffers)
    ensures UnpackAll(wire, bufs) == Flatten(UnpackEach(wire, bufs))
  {
    if wire != [] {
      var n := |wire| - 1;
      UnpackAllFlattens(wire[..n], bufs);
      FlattenAppend(UnpackEach(wire[..n], bufs), Unpack(wire[n], bufs.Base(n, |wire[n].bytes|)));
    }
  }

  // ---------- yielding bucket by bucket ----------

  function BaseAt(src: seq<Bucket>, bufs: Buffers, k: nat): nat
    requires k < |src|
  {
    bufs.Base(k, |src[k].bytes|)
  }

  /** What has been yielded when bucket g - 1 is at its j-th chunk. */
  function OutAt(src: seq<Bucket>, bufs: Buffers, g: nat, j: nat): seq<Chunk>
    requires 0 < g <= |src| && j <= |src[g - 1].meta|
  {
    UnpackAll(src[..g - 1], bufs) + Views(src[g - 1].meta[..j], src[g - 1].bytes, BaseAt(src, bufs, g - 1))
  }

  lemma UnpackPrefix(src: seq<Bucket>, bufs: Buffers, g: nat)
    requires g < |src|
    ensures UnpackAll(src[..g + 1], bufs) == UnpackAll(src[..g], bufs) + Unpack(src[g], BaseAt(src, bufs, g))
  {
    assert src[..g + 1] == src[..g] + [src[g]];
    UnpackAllAppend(src[..g], src[g], bufs);
  }

  lemma OutAtNext(src: seq<Bucket>, bufs: Buffers, g: nat, j: nat)
    requires 0 < g <= |src| && j <= |src[g - 1].meta|
    ensures j < |src[g - 1].meta| ==>
              OutAt(src, bufs, g, j) + [View(src[g - 1].meta[j], src[g - 1].bytes, BaseAt(src, bufs, g - 1))]
              == OutAt(src, bufs, g, j + 1)
    ensures j == |src[g - 1].meta| ==> OutAt(src, bufs, g, j) == UnpackAll(src[..g], bufs)
    ensures OutAt(src, bufs, g, 0) == UnpackAll(src[..g - 1], bufs)
  {
    var b, base, earlier := src[g - 1], BaseAt(src, bufs, g - 1), UnpackAll(src[..g - 1], bufs);
    if j < |b.meta| {
      ViewsPrefix(b.meta, j, b.bytes, base);
      var v, c := Views(b.meta[..j], b.bytes, base), [View(b.meta[j], b.bytes, base)];
      assert earlier + v + c == earlier + (v + c);
    } else {
      assert b.meta[..j] == b.meta;
      UnpackPrefix(src, bufs, g - 1);
    }
  }

  lemma {:induction false} UnpackAllPrefix(src: seq<Bucket>, bufs: Buffers, g: nat)
    requires g <= |src|
    ensures UnpackAll(src[..g], bufs) <= UnpackAll(src, bufs)
    decreases |src| - g
  {
    if g == |src| {
      assert src[..g] == src;
    } else {
      UnpackPrefix(src, bufs, g);
      UnpackAllPrefix(src, bufs, g + 1);
    }
  }

  lemma {:induction false} ViewsPrefixOf(b: Bucket, base: nat, j: nat)
    requires j <= |b.meta|
    ensures Views(b.meta[..j], b.bytes, base) <= Unpack(b, base)
    decreases |b.meta| - j
  {
    if j == |b.meta| {
      assert b.meta[..j] == b.meta;
    } else {
      ViewsPrefix(b.meta, j, b.bytes, base);
      ViewsPrefixOf(b, base, j + 1);
    }
  }

  /** Exactly the last message carries the flag; there always is one. */
  predicate LastFlagged(wire: seq<Bucket>) {
    && |wire| > 0
    && forall i :: 0 <= i < |wire| ==> (wire[i].isLast <==> i == |wire| - 1)
  }

  // ---------- the greedy packing ----------

  function Size(chunks: seq<Chunk>): nat {
    if chunks == [] then 0 else Size(chunks[..|chunks| - 1]) + chunks[|chunks| - 1].meta.chunkSize
  }

  lemma SizeAppend(chunks: seq<Chunk>, c: Chunk)
    ensures Size(chunks + [c]) == Size(chunks) + c.meta.chunkSize
  {
    assert (chunks + [c])[..|chunks|] == chunks;
  }

  /** The chunks of each bucket when `cur` is already in the current one. */
  function PackFrom(cur: seq<Chunk>, chunks: seq<Chunk>, bucketSize: nat): seq<seq<Chunk>>
    decreases chunks
  {
    if chunks == [] then [cur]
    else if Size(cur) + chunks[0].meta.chunkSize > bucketSize then
      [cur] + PackFrom([chunks[0]], chunks[1..], bucketSize)
    else PackFrom(cur + [chunks[0]], chunks[1..], bucketSize)
  }

  function Pack(chunks: seq<Chunk>, bucketSize: nat): seq<seq<Chunk>> {
    PackFrom([], chunks, bucketSize)
  }

  predicate Fits(chunks: seq<Chunk>, bucketSize: nat) {
    forall i :: 0 <= i < |chunks| ==> 0 < chunks[i].meta.chunkSize <= bucketSize
  }

  /** Each chunk carries as many bytes as its description says. */
  predicate SizesMatch(chunks: seq<Chunk>) {
    forall i :: 0 <= i < |chunks| ==> |chunks[i].bytes| == chunks[i].meta.chunkSize
  }

  /** No chunk is lost, duplicated or moved. */
  lemma {:induction false} PackFromTiles(cur: seq<Chunk>, chunks: seq<Chunk>, bucketSize: nat)
    ensures Flatten(PackFrom(cur, chunks, bucketSize)) == cur + chunks
    decreases chunks
  {
    if chunks == [] {
      assert Flatten([cur]) == cur + Flatten<Chunk>([]);
    } else {
      var c, rest := chunks[0], chunks[1..];
      if Size(cur) + c.meta.chunkSize > bucketSize {
        PackFromTiles([c], rest, bucketSize);
        assert Flatten([cur] + PackFrom([c], rest, bucketSize)) == cur + ([c] + rest);
        assert [c] + rest == chunks;
      } else {
        PackFromTiles(cur + [c], rest, bucketSize);
        assert cur + [c] + rest == cur + chunks;
      }
    }
  }

  /** Every bucket is within the size, and a bucket is closed only because the
      next chunk does not fit. */
  predicate Greedy(buckets: seq<seq<Chunk>>, bucketSize: nat) {
    && (forall i :: 0 <= i < |buckets| ==> Size(buckets[i]) <= bucketSize)
    && (forall i :: 0 < i < |buckets| ==>
          buckets[i] != [] && Size(buckets[i - 1]) + buckets[i][0].meta.chunkSize > bucketSize)
  }

  lemma {:induction false} PackFromGreedy(cur: seq<Chunk>, chunks: seq<Chunk>, bucketSize: nat)
    requires Fits(chunks, bucketSize) && Size(cur) <= bucketSize
    ensures var p := PackFrom(cur, chunks, bucketSize);
            Greedy(p, bucketSize) && p != [] && cur <= p[0]
    decreases chunks
  {
    if chunks != [] {
      var c, rest := chunks[0], chunks[1..];
      SizeAppend([], c);
      SizeAppend(cur, c);
      if Size(cur) + c.meta.chunkSize > bucketSize {
        PackFromGreedy([c], rest, bucketSize);
        var p := PackFrom([c], rest, bucketSize);
        assert p[0] != [] && p[0][0] == c;
        assert forall i :: 0 < i < |[cur] + p| ==> ([cur] + p)[i] == p[i - 1];
      } else {
        PackFromGreedy(cur + [c], rest, bucketSize);
      }
    }
  }

  // ---------- names ----------

  predicate HasName(chunks: seq<Chunk>, name: string) {
    exists i :: 0 <= i < |chunks| && chunks[i].meta.name == name
  }

  predicate DistinctChunks(chunks: seq<Chunk>) {
    forall i, j :: 0 <= i < j < |chunks| ==> chunks[i].meta.name != chunks[j].meta.name
  }

  predicate AllDistinct(buckets: seq<seq<Chunk>>) {
    forall i :: 0 <= i < |buckets| ==> DistinctChunks(buckets[i])
  }

  /** The `tensor_meta.name not in bucket_meta` assertion fires somewhere in the loop. */
  predicate RepeatsName(cur: seq<Chunk>, chunks: seq<Chunk>, bucketSize: nat)
    decreases chunks
  {
    if chunks == [] then false else
      var cur' := if Size(cur) + chunks[0].meta.chunkSize > bucketSize then [] else cur;
      HasName(cur', chunks[0].meta.name) || RepeatsName(cur' + [chunks[0]], chunks[1..], bucketSize)
  }

  lemma DistinctAppend(cur: seq<Chunk>, c: Chunk)
    ensures DistinctChunks(cur + [c]) <==> DistinctChunks(cur) && !HasName(cur, c.meta.name)
  {
    var cur' := cur + [c];
    assert cur'[|cur|] == c;
    assert forall i :: 0 <= i < |cur| ==> cur'[i] == cur[i];
  }

  lemma PrefixDistinct(buckets: seq<seq<Chunk>>, cur: seq<Chunk>)
    requires buckets != [] && cur <= buckets[0] && !DistinctChunks(cur)
    ensures !AllDistinct(buckets)
  {
    var i, j :| 0 <= i < j < |cur| && cur[i].meta.name == cur[j].meta.name;
    assert buckets[0][i] == cur[i] && buckets[0][j] == cur[j];
    assert !DistinctChunks(buckets[0]);
  }

  lemma AllDistinctPrepend(cur: seq<Chunk>, buckets: seq<seq<Chunk>>)
    requires DistinctChunks(cur)
    ensures AllDistinct([cur] + buckets) <==> AllDistinct(buckets)
  {
    if AllDistinct([cur] + buckets) {
      forall i | 0 <= i < |buckets| ensures DistinctChunks(buckets[i]) {
        assert ([cur] + buckets)[i + 1] == buckets[i];
      }
    }
  }

  /** The assertion fires exactly when a bucket would get two chunks of one name. */
  lemma {:induction false} RepeatsNameIff(cur: seq<Chunk>, chunks: seq<Chunk>, bucketSize: nat)
    requires Fits(chunks, bucketSize) && Size(cur) <= bucketSize && DistinctChunks(cur)
    ensures RepeatsName(cur, chunks, bucketSize) <==> !AllDistinct(PackFrom(cur, chunks, bucketSize))
    decreases chunks
  {
    if chunks == [] {
      assert AllDistinct([cur]);
    } else {
      var c, rest := chunks[0], chunks[1..];
      var overflow := Size(cur) + c.meta.chunkSize > bucketSize;
      var cur' := (if overflow then [] else cur) + [c];
      SizeAppend(if overflow then [] else cur, c);
      DistinctAppend(if overflow then [] else cur, c);
      assert overflow ==> cur' == [c];
      AllDistinctPrepend(cur, PackFrom(cur', rest, bucketSize));
      if DistinctChunks(cur') {
        RepeatsNameIff(cur', rest, bucketSize);
      } else {
        PackFromGreedy(cur', rest, bucketSize);
        PrefixDistinct(PackFrom(cur', rest, bucketSize), cur');
      }
    }
  }

  predicate DistinctWeights(weights: seq<Named>) {
    forall i, j :: 0 <= i < j < |weights| ==> weights[i].name != weights[j].name
  }

  /** Of two chunks with one name, the earlier one fills a bucket by itself. */
  predicate FullUnlessLast(chunks: seq<Chunk>, bucketSize: nat) {
    forall i, j :: 0 <= i < j < |chunks| && chunks[i].meta.name == chunks[j].meta.name ==>
      chunks[i].meta.chunkSize == bucketSize
  }

  lemma {:induction false} SplitTensorFits(w: Named, bucketSize: nat, from: nat)
    requires bucketSize > 0
    ensures Fits(SplitTensor(w, bucketSize, from), bucketSize) && SizesMatch(SplitTensor(w, bucketSize, from))
    decreases |w.tensor.bytes| - from
  {
    if from < |w.tensor.bytes| {
      SplitTensorFits(w, bucketSize, from + ChunkAt(w, bucketSize, from).meta.chunkSize);
    }
  }

  lemma {:induction false} SplitFits(weights: seq<Named>, bucketSize: nat)
    requires bucketSize > 0
    ensures Fits(Split(weights, bucketSize), bucketSize) && SizesMatch(Split(weights, bucketSize))
  {
    if weights != [] {
      SplitTensorFits(weights[0], bucketSize, 0);
      SplitFits(weights[1..], bucketSize);
    }
  }

  predicate FullButLast(chunks: seq<Chunk>, bucketSize: nat) {
    forall i :: 0 <= i < |chunks| - 1 ==> chunks[i].meta.chunkSize == bucketSize
  }

  predicate Describes(c: Chunk, w: Named) {
    c.meta.name == w.name && c.meta.shape == w.tensor.shape && c.meta.dtype == w.tensor.dtype
  }

  lemma {:induction false} SplitTensorDescribes(w: Named, bucketSize: nat, from: nat)
    requires bucketSize > 0
    ensures forall c :: c in SplitTensor(w, bucketSize, from) ==> Describes(c, w)
    ensures FullButLast(SplitTensor(w, bucketSize, from), bucketSize)
    decreases |w.tensor.bytes| - from
  {
    if from < |w.tensor.bytes| {
      SplitTensorDescribes(w, bucketSize, from + ChunkAt(w, bucketSize, from).meta.chunkSize);
    }
  }

  lemma {:induction false} SplitDescribes(weights: seq<Named>, bucketSize: nat)
    requires bucketSize > 0
    ensures forall c :: c in Split(weights, bucketSize) ==> exists w :: w in weights && Describes(c, w)
  {
    if weights != [] {
      SplitTensorDescribes(weights[0], bucketSize, 0);
      SplitDescribes(weights[1..], bucketSize);
      forall c | c in Split(weights, bucketSize) ensures exists w :: w in weights && Describes(c, w) {
        if c in SplitTensor(weights[0], bucketSize, 0) {
          assert weights[0] in weights;
        } else {
          assert c in Split(weights[1..], bucketSize);
          var w :| w in weights[1..] && Describes(c, w);
          assert w in weights;
        }
      }
    }
  }

  lemma {:induction false} SplitFullUnlessLast(weights: seq<Named>, bucketSize: nat)
    requires bucketSize > 0 && DistinctWeights(weights)
    ensures FullUnlessLast(Split(weights, bucketSize), bucketSize)
  {
    if weights != [] {
      var head, tail := SplitTensor(weights[0], bucketSize, 0), Split(weights[1..], bucketSize);
      SplitTensorDescribes(weights[0], bucketSize, 0);
      SplitDescribes(weights[1..], bucketSize);
      SplitFullUnlessLast(weights[1..], bucketSize);
      forall i | 0 <= i < |tail| ensures tail[i].meta.name != weights[0].name {
        assert tail[i] in tail;
        var w :| w in weights[1..] && Describes(tail[i], w);
        var k :| 0 <= k < |weights[1..]| && weights[1..][k] == w;
        assert weights[k + 1] == w;
      }
      forall i | 0 <= i < |head| ensures head[i].meta.name == weights[0].name {
        assert head[i] in head && Describes(head[i], weights[0]);
      }
      var all := Split(weights, bucketSize);
      assert all == head + tail;
      forall i, j | 0 <= i < j < |all| && all[i].meta.name == all[j].meta.name
        ensures all[i].meta.chunkSize == bucketSize
      {
        if i >= |head| {
          assert tail[i - |head|] == all[i] && tail[j - |head|] == all[j];
        } else if j < |head| {
          assert head[i] == all[i];
        }
      }
    }
  }

  /** With distinct weight names, no bucket holds two chunks of one name, so the
      `not in bucket_meta` assertion of the senders never fires. */
  lemma {:induction false} PackFromDistinct(cur: seq<Chunk>, chunks: seq<Chunk>, bucketSize: nat)
    requires Fits(cur + chunks, bucketSize) && FullUnlessLast(cur + chunks, bucketSize)
    requires DistinctChunks(cur) && Size(cur) <= bucketSize
    ensures AllDistinct(PackFrom(cur, chunks, bucketSize))
    decreases chunks
  {
    if chunks != [] {
      var c, rest := chunks[0], chunks[1..];
      assert (cur + chunks)[|cur|] == c;
      SizeAppend([], c);
      SizeAppend(cur, c);
      assert cur + chunks == cur + [c] + rest;
      if Size(cur) + c.meta.chunkSize > bucketSize {
        assert forall i :: 0 <= i < |[c] + rest| ==> ([c] + rest)[i] == (cur + chunks)[|cur| + i];
        PackFromDistinct([c], rest, bucketSize);
      } else {
        forall i | 0 <= i < |cur| ensures cur[i].meta.name != c.meta.name {
          assert (cur + chunks)[i] == cur[i];
          ElementWithinSize(cur, i);
        }
        PackFromDistinct(cur + [c], rest, bucketSize);
      }
    }
  }

  lemma {:induction false} ElementWithinSize(chunks: seq<Chunk>, i: nat)
    requires i < |chunks|
    ensures chunks[i].meta.chunkSize <= Size(chunks)
  {
    var n := |chunks| - 1;
    if i < n {
      ElementWithinSize(chunks[..n], i);
    }
  }

  // ---------- what the buckets deliver ----------

  /** Every message has a buffer of the full size. */
  predicate FullBuffers(wire: seq<Bucket>, bucketSize: nat) {
    forall i :: 0 <= i < |wire| ==> |wire[i].bytes| == bucketSize
  }

  /** The chunks of a bucket whose buffer begins at `base`: each begins where the ones
      before it end. */
  function PlacedIn(bucket: seq<Chunk>, base: nat): (r: seq<Chunk>)
    ensures |r| == |bucket| && forall j :: 0 <= j < |r| ==> r[j] == PlacedAt(bucket, base, j)
  {
    seq(|bucket|, j requires 0 <= j < |bucket| => PlacedAt(bucket, base, j))
  }

  function PlacedAt(bucket: seq<Chunk>, base: nat, j: nat): Chunk
    requires j < |bucket|
  {
    bucket[j].(at := base + Size(bucket[..j]))
  }

  function PlacedEach(buckets: seq<seq<Chunk>>, bufs: Buffers, bucketSize: nat): seq<seq<Chunk>> {
    if buckets == [] then [] else
      var n := |buckets| - 1;
      PlacedEach(buckets[..n], bufs, bucketSize) + [PlacedIn(buckets[n], bufs.Base(n, bucketSize))]
  }

  lemma PlacedAppend(bucket: seq<Chunk>, base: nat, c: Chunk)
    ensures PlacedIn(bucket + [c], base) == PlacedIn(bucket, base) + [c.(at := base + Size(bucket))]
  {
    var x, y := PlacedIn(bucket + [c], base), PlacedIn(bucket, base) + [c.(at := base + Size(bucket))];
    forall j | 0 <= j < |x| ensures x[j] == y[j] {
      assert (bucket + [c])[..j] == bucket[..j];
    }
  }

  lemma PlacedEachAppend(buckets: seq<seq<Chunk>>, bucket: seq<Chunk>, bufs: Buffers, bucketSize: nat)
    ensures PlacedEach(buckets + [bucket], bufs, bucketSize)
            == PlacedEach(buckets, bufs, bucketSize) + [PlacedIn(bucket, bufs.Base(|buckets|, bucketSize))]
  {
    assert (buckets + [bucket])[..|buckets|] == buckets;
  }

  lemma {:induction false} PlacedSame(buckets: seq<seq<Chunk>>, bufs: Buffers, bucketSize: nat)
    ensures |PlacedEach(buckets, bufs, bucketSize)| == |buckets|
    ensures SameChunks(Flatten(PlacedEach(buckets, bufs, bucketSize)), Flatten(buckets))
  {
    if buckets != [] {
      var n := |buckets| - 1;
      PlacedSame(buckets[..n], bufs, bucketSize);
      FlattenAppend(PlacedEach(buckets[..n], bufs, bucketSize), PlacedIn(buckets[n], bufs.Base(n, bucketSize)));
      FlattenAppend(buckets[..n], buckets[n]);
      assert buckets == buckets[..n] + [buckets[n]];
    }
  }

  /** Every whole tensor of the bucket begins at a multiple of its item size. */
  predicate BucketAligned(bucket: seq<Chunk>, base: nat, bucketSize: nat) {
    forall j :: 0 <= j < |bucket| ==> ViewAligned(PlacedAt(bucket, base, j), bucketSize)
  }

  predicate PlacesAligned(buckets: seq<seq<Chunk>>, bufs: Buffers, bucketSize: nat) {
    forall k :: 0 <= k < |buckets| ==> BucketAligned(buckets[k], bufs.Base(k, bucketSize), bucketSize)
  }

  lemma BucketAlignedIff(bucket: seq<Chunk>, base: nat, bucketSize: nat)
    ensures ViewsAligned(PlacedIn(bucket, base), bucketSize) <==> BucketAligned(bucket, base, bucketSize)
  {
    var placed := PlacedIn(bucket, base);
    assert forall j :: 0 <= j < |bucket| ==> placed[j] == PlacedAt(bucket, base, j);
  }

  lemma ViewsAlignedConcat(a: seq<Chunk>, b: seq<Chunk>, bucketSize: nat)
    ensures ViewsAligned(a + b, bucketSize) <==> ViewsAligned(a, bucketSize) && ViewsAligned(b, bucketSize)
  {
    var c := a + b;
    assert forall i :: 0 <= i < |a| ==> c[i] == a[i];
    assert forall i :: 0 <= i < |b| ==> c[|a| + i] == b[i];
  }

  lemma LastPlaceAligned(buckets: seq<seq<Chunk>>, bufs: Buffers, bucketSize: nat)
    requires buckets != []
    ensures var n := |buckets| - 1;
            PlacesAligned(buckets, bufs, bucketSize)
            <==> && PlacesAligned(buckets[..n], bufs, bucketSize)
                 && BucketAligned(buckets[n], bufs.Base(n, bucketSize), bucketSize)
  {
    var n := |buckets| - 1;
    assert forall k :: 0 <= k < n ==> buckets[..n][k] == buckets[k];
  }

  lemma {:induction false} PlacesAlignedIff(buckets: seq<seq<Chunk>>, bufs: Buffers, bucketSize: nat)
    ensures ViewsAligned(Flatten(PlacedEach(buckets, bufs, bucketSize)), bucketSize)
            <==> PlacesAligned(buckets, bufs, bucketSize)
  {
    if buckets != [] {
      var n := |buckets| - 1;
      var base := bufs.Base(n, bucketSize);
      var earlier, last := PlacedEach(buckets[..n], bufs, bucketSize), PlacedIn(buckets[n], base);
      PlacesAlignedIff(buckets[..n], bufs, bucketSize);
      LastPlaceAligned(buckets, bufs, bucketSize);
      BucketAlignedIff(buckets[n], base, bucketSize);
      FlattenAppend(earlier, last);
      ViewsAlignedConcat(Flatten(earlier), last, bucketSize);
    }
  }

  /** Message i carries exactly the chunks of bucket i, in a buffer of the full size. */
  predicate Carries(wire: seq<Bucket>, buckets: seq<seq<Chunk>>, bucketSize: nat) {
    UnpackEach(wire, Separate) == PlacedEach(buckets, Separate, bucketSize) && FullBuffers(wire, bucketSize)
  }

  /** The views of the receivers succeed for these tensors. */
  predicate Viewable(weights: seq<Named>, bucketSize: nat)
    requires bucketSize > 0
  {
    PlacesAligned(Pack(Split(weights, bucketSize), bucketSize), Separate, bucketSize)
  }

  /** What a receiver makes of the tensors: exactly those that have bytes, if and only if
      they are viewable; otherwise a view fails after some of them. */
  predicate Delivers(received: Merged, weights: seq<Named>, bucketSize: nat)
    requires bucketSize > 0
  {
    if Viewable(weights, bucketSize) then received == Merged(NonEmpty(weights), None)
    else received.failure == Some(ViewMisaligned) && received.yielded <= NonEmpty(weights)
  }

  /** Whatever carries the packed buckets delivers exactly the tensors that have bytes,
      if and only if every unsplit one lies at a multiple of its item size in its bucket. */
  lemma WireDelivers(weights: seq<Named>, bucketSize: nat, wire: seq<Bucket>)
    requires bucketSize > 0 && AllValid(weights)
    requires Carries(wire, Pack(Split(weights, bucketSize), bucketSize), bucketSize)
    ensures SameChunks(UnpackAll(wire, Separate), Split(weights, bucketSize))
    ensures Delivers(Merge(UnpackAll(wire, Separate), bucketSize), weights, bucketSize)
  {
    var chunks, buckets := Split(weights, bucketSize), Pack(Split(weights, bucketSize), bucketSize);
    UnpackAllFlattens(wire, Separate);
    PackFromTiles([], chunks, bucketSize);
    assert [] + chunks == chunks;
    PlacedSame(buckets, Separate, bucketSize);
    PlacesAlignedIff(buckets, Separate, bucketSize);
    MergeAfterSplit(weights, bucketSize);
    MergeMovedIff(Idle, chunks, UnpackAll(wire, Separate), bucketSize);
  }

  // ---------- when the tensors are viewable ----------

  /** The chunk consists of whole items of this size. */
  predicate IsWhole(c: Chunk, itemsize: nat) {
    c.meta.dtype.itemsize == itemsize && WholeItems(c.meta.chunkSize, itemsize)
  }

  predicate AllWhole(chunks: seq<Chunk>, itemsize: nat) {
    forall i :: 0 <= i < |chunks| ==> IsWhole(chunks[i], itemsize)
  }

  predicate EachWhole(buckets: seq<seq<Chunk>>, itemsize: nat) {
    forall k :: 0 <= k < |buckets| ==> AllWhole(buckets[k], itemsize)
  }

  lemma {:induction false} SizeWhole(chunks: seq<Chunk>, itemsize: nat)
    requires AllWhole(chunks, itemsize)
    ensures WholeItems(Size(chunks), itemsize)
  {
    if chunks != [] {
      var n := |chunks| - 1;
      SizeWhole(chunks[..n], itemsize);
      assert IsWhole(chunks[n], itemsize);
      WholeSum(Size(chunks[..n]), chunks[n].meta.chunkSize, itemsize);
    }
  }

  lemma {:induction false} PackFromWhole(cur: seq<Chunk>, chunks: seq<Chunk>, bucketSize: nat, itemsize: nat)
    requires AllWhole(cur, itemsize) && AllWhole(chunks, itemsize)
    ensures EachWhole(PackFrom(cur, chunks, bucketSize), itemsize)
    decreases chunks
  {
    if chunks != [] {
      assert IsWhole(chunks[0], itemsize);
      if Size(cur) + chunks[0].meta.chunkSize > bucketSize {
        PackFromWhole([chunks[0]], chunks[1..], bucketSize, itemsize);
        EachWholePrepend(cur, PackFrom([chunks[0]], chunks[1..], bucketSize), itemsize);
      } else {
        PackFromWhole(cur + [chunks[0]], chunks[1..], bucketSize, itemsize);
      }
    }
  }

  lemma EachWholePrepend(cur: seq<Chunk>, buckets: seq<seq<Chunk>>, itemsize: nat)
    requires AllWhole(cur, itemsize) && EachWhole(buckets, itemsize)
    ensures EachWhole([cur] + buckets, itemsize)
  {
  }

  lemma WholeBucketAligned(bucket: seq<Chunk>, base: nat, bucketSize: nat, itemsize: nat)
    requires AllWhole(bucket, itemsize) && WholeItems(base, itemsize)
    ensures BucketAligned(bucket, base, bucketSize)
  {
    forall j | 0 <= j < |bucket| ensures ViewAligned(PlacedAt(bucket, base, j), bucketSize) {
      assert IsWhole(bucket[j], itemsize);
      SizeWhole(bucket[..j], itemsize);
      WholeSum(base, Size(bucket[..j]), itemsize);
    }
  }

  predicate OneItemSize(weights: seq<Named>, itemsize: nat) {
    forall i :: 0 <= i < |weights| ==> weights[i].tensor.dtype.itemsize == itemsize
  }

  /** No tensor is split. */
  predicate AllWithin(weights: seq<Named>, bucketSize: nat) {
    forall i :: 0 <= i < |weights| ==> |weights[i].tensor.bytes| <= bucketSize
  }

  lemma {:induction false} SplitTensorWhole(w: Named, bucketSize: nat, from: nat)
    requires bucketSize > 0 && w.tensor.Valid() && from <= |w.tensor.bytes|
    requires WholeItems(from, w.tensor.dtype.itemsize)
    requires WholeItems(bucketSize, w.tensor.dtype.itemsize) || |w.tensor.bytes| <= bucketSize
    ensures AllWhole(SplitTensor(w, bucketSize, from), w.tensor.dtype.itemsize)
    decreases |w.tensor.bytes| - from
  {
    var s := w.tensor.dtype.itemsize;
    if from < |w.tensor.bytes| {
      var size := Min(bucketSize, |w.tensor.bytes| - from);
      ItemsAreWhole(Numel(w.tensor.shape), s);
      WholeSum(from, |w.tensor.bytes| - from, s);
      WholeSum(from, size, s);
      SplitTensorWhole(w, bucketSize, from + size);
    }
  }

  lemma {:induction false} SplitWhole(weights: seq<Named>, bucketSize: nat, itemsize: nat)
    requires bucketSize > 0 && AllValid(weights) && OneItemSize(weights, itemsize)
    requires WholeItems(bucketSize, itemsize) || AllWithin(weights, bucketSize)
    ensures AllWhole(Split(weights, bucketSize), itemsize)
  {
    if weights != [] {
      SplitTensorWhole(weights[0], bucketSize, 0);
      SplitWhole(weights[1..], bucketSize, itemsize);
    }
  }

  /** Tensors of one item size are viewable if it divides the bucket size, or if none of
      them is split. */
  lemma OneItemSizeViewable(weights: seq<Named>, bucketSize: nat, itemsize: nat)
    requires bucketSize > 0 && AllValid(weights) && OneItemSize(weights, itemsize)
    requires WholeItems(bucketSize, itemsize) || AllWithin(weights, bucketSize)
    ensures Viewable(weights, bucketSize)
  {
    SplitWhole(weights, bucketSize, itemsize);
    PackFromWhole([], Split(weights, bucketSize), bucketSize, itemsize);
    var buckets := Pack(Split(weights, bucketSize), bucketSize);
    forall k | 0 <= k < |buckets| ensures BucketAligned(buckets[k], 0, bucketSize) {
      WholeBucketAligned(buckets[k], 0, bucketSize, itemsize);
    }
  }

  const HALF := DType("bfloat16", 2)
  const SINGLE := DType("float32", 4)

  /** Three two-byte values and one four-byte value in one bucket: the second tensor lies
      at byte 6, and its view fails. */
  lemma MixedItemSizesFail(a: seq<byte>, b: seq<byte>, wire: seq<Bucket>)
    requires |a| == 6 && |b| == 4
    requires var weights := [Named("a", Tensor([3], HALF, a)), Named("b", Tensor([1], SINGLE, b))];
             Carries(wire, Pack(Split(weights, 16), 16), 16)
    ensures Merge(UnpackAll(wire, Separate), 16).failure == Some(ViewMisaligned)
  {
    var v, w := Named("a", Tensor([3], HALF, a)), Named("b", Tensor([1], SINGLE, b));
    var weights := [v, w];
    var c, d := ChunkAt(v, 16, 0), ChunkAt(w, 16, 0);
    assert Numel([3]) == 3 * Numel([3][1..]) == 3 && Numel([1]) == 1 * Numel([1][1..]) == 1;
    assert SplitTensor(v, 16, 0) == [c] + SplitTensor(v, 16, 6) == [c];
    assert SplitTensor(w, 16, 0) == [d] + SplitTensor(w, 16, 4) == [d];
    assert weights[1..] == [w] && [w][1..] == [];
    assert Split([w], 16) == [d] + Split([], 16) == [d];
    assert Split(weights, 16) == [c] + [d] == [c, d];
    TwoInOneBucket(c, d, 16);
    SecondMisaligned(c, d, 16);
    assert Pack([c, d], 16)[0] == [c, d];
    WireDelivers(weights, 16, wire);
  }

  lemma SecondMisaligned(c: Chunk, d: Chunk, bucketSize: nat)
    requires d.meta.NBytes() <= bucketSize && d.meta.dtype.itemsize == 4 && c.meta.chunkSize == 6
    ensures !BucketAligned([c, d], 0, bucketSize)
  {
    assert [c, d][..1] == [] + [c];
    SizeAppend([], c);
    assert PlacedAt([c, d], 0, 1) == d.(at := 6);
    assert !ViewAligned(PlacedAt([c, d], 0, 1), bucketSize);
  }

  lemma TwoInOneBucket(c: Chunk, d: Chunk, bucketSize: nat)
    requires c.meta.chunkSize + d.meta.chunkSize <= bucketSize
    ensures Pack([c, d], bucketSize) == [[c, d]]
  {
    assert [c, d][1..] == [d] && [d][1..] == [] && [] + [c] == [c] && [c] + [d] == [c, d];
    SizeAppend([], c);
    assert PackFrom([c, d], [], bucketSize) == [[c, d]];
    assert PackFrom([c], [d], bucketSize) == [[c, d]];
  }

  /** With distinct names, the sender's assertions never fire. */
  lemma SenderNeverFails(weights: seq<Named>, bucketSize: nat)
    requires bucketSize > 0 && DistinctWeights(weights)
    ensures AllDistinct(Pack(Split(weights, bucketSize), bucketSize))
  {
    SplitFits(weights, bucketSize);
    SplitFullUnlessLast(weights, bucketSize);
    var chunks := Split(weights, bucketSize);
    assert [] + chunks == chunks;
    PackFromDistinct([], chunks, bucketSize);
  }
}
