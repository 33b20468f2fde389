/** The NCCL checkpoint engine (verl/checkpoint_engine/nccl_checkpoint_engine.py):
    buckets are filled in one of two alternating buffers while the other one is
    being broadcast, and yielded from one while the next arrives in the other.

    Broadcast k of the sender meets broadcast k of every receiver, so the wire is
    the sequence of messages. An operation runs at some moment between its start
    and `WaitForComplete`: on the sending side the bytes are taken at the last
    possible moment and shown to be those at the start; on the receiving side the
    moment of arrival is left open. */
module NcclEngine {
  import opened Buckets
  import opened WeightChunks
  import opened Wrappers

  /** A broadcast that was started and not yet waited for. */
  datatype BroadcastOperation = BroadcastOperation(bucket: array<byte>, metadata: seq<Placed>, isLast: bool) {
    ghost function Message(): Bucket
      reads bucket
    {
      Bucket(metadata, isLast, bucket[..])
    }

    method WaitForComplete() returns (sent: Bucket)
      ensures sent == Message()
    {
      sent := Bucket(metadata, isLast, bucket[..]);
    }
  }

  /** The messages before the last one. */
  predicate Open(wire: seq<Bucket>, bucketSize: nat) {
    FullBuffers(wire, bucketSize) && forall i :: 0 <= i < |wire| ==> !wire[i].isLast
  }

  /** The chunks of the messages sent and of the bucket being filled. */
  datatype Progress = Progress(sent: seq<seq<Chunk>>, cur: seq<Chunk>)

  function MakeRoom(p: Progress, c: Chunk, bucketSize: nat): Progress {
    if Size(p.cur) + c.meta.chunkSize > bucketSize then Progress(p.sent + [p.cur], []) else p
  }

  function Place(p: Progress, c: Chunk): Progress {
    p.(cur := p.cur + [c])
  }

  /** All the buckets, when `rest` is still to come. */
  function Target(p: Progress, rest: seq<Chunk>, bucketSize: nat): seq<seq<Chunk>> {
    p.sent + PackFrom(p.cur, rest, bucketSize)
  }

  lemma TargetStep(p: Progress, chunks: seq<Chunk>, i: nat, bucketSize: nat)
    requires i < |chunks|
    ensures var p' := MakeRoom(p, chunks[i], bucketSize);
            && Target(p, chunks[i..], bucketSize) == Target(Place(p', chunks[i]), chunks[i + 1..], bucketSize)
            && (RepeatsName(p.cur, chunks[i..], bucketSize) <==>
                  HasName(p'.cur, chunks[i].meta.name)
                  || RepeatsName(Place(p', chunks[i]).cur, chunks[i + 1..], bucketSize))
  {
    assert chunks[i..][1..] == chunks[i + 1..] && [] + [chunks[i]] == [chunks[i]];
    var q := PackFrom([chunks[i]], chunks[i + 1..], bucketSize);
    assert p.sent + ([p.cur] + q) == (p.sent + [p.cur]) + q;
  }

  lemma PutView(meta: seq<Placed>, offset: nat, bytes: seq<byte>, bytes': seq<byte>, c: Chunk)
    requires Below(meta, offset)
    requires |c.bytes| == c.meta.chunkSize && offset + |c.bytes| <= |bytes|
    requires bytes' == bytes[..offset] + c.bytes + bytes[offset + |c.bytes|..]
    ensures Views(meta + [Placed(c.meta, offset)], bytes', 0) == Views(meta, bytes, 0) + [c.(at := offset)]
  {
    ViewsKept(meta, offset, bytes, bytes', 0);
    ViewsAppend(meta, bytes', 0, Placed(c.meta, offset));
  }

  lemma OpenAppend(wire: seq<Bucket>, b: Bucket, bucketSize: nat)
    requires Open(wire, bucketSize) && |b.bytes| == bucketSize
    ensures !b.isLast ==> Open(wire + [b], bucketSize)
    ensures b.isLast ==> LastFlagged(wire + [b]) && FullBuffers(wire + [b], bucketSize)
  {
  }

  lemma HasAsName(meta: seq<Placed>, bytes: seq<byte>, cur: seq<Chunk>, name: string)
    requires Views(meta, bytes, 0) == PlacedIn(cur, 0)
    ensures HasName(cur, name) <==> exists k :: 0 <= k < |meta| && meta[k].meta.name == name
  {
    ViewsAt(meta, bytes, 0);
    var placed := PlacedIn(cur, 0);
    assert forall k :: 0 <= k < |meta| ==> placed[k].meta == cur[k].meta == meta[k].meta;
  }

  /** The messages waited for and the one being broadcast, as its buffer now stands. */
  ghost function Started(wire: seq<Bucket>, op: Option<BroadcastOperation>): seq<Bucket>
    reads if op.Some? then {op.value.bucket} else {}
  {
    if op.Some? then wire + [op.value.Message()] else wire
  }

  method WaitForPrevious(wire: seq<Bucket>, op: Option<BroadcastOperation>) returns (wire': seq<Bucket>)
    ensures wire' == Started(wire, op)
  {
    wire' := wire;
    if op.Some? {
      var sent := op.value.WaitForComplete();
      wire' := wire' + [sent];
    }
  }

  method StartBroadcast(wire: seq<Bucket>, op: Option<BroadcastOperation>, bucket: array<byte>, metadata: seq<Placed>,
                        isLast: bool)
    returns (wire': seq<Bucket>, op': Option<BroadcastOperation>)
    requires Open(Started(wire, op), bucket.Length)
    ensures op' == Some(BroadcastOperation(bucket, metadata, isLast))
    ensures UnpackEach(Started(wire', op'), Separate)
            == UnpackEach(Started(wire, op), Separate) + [Views(metadata, bucket[..], 0)]
    ensures !isLast ==> Open(Started(wire', op'), bucket.Length)
    ensures isLast ==> LastFlagged(Started(wire', op')) && FullBuffers(Started(wire', op'), bucket.Length)
  {
    wire' := WaitForPrevious(wire, op);
    op' := Some(BroadcastOperation(bucket, metadata, isLast));
    OpenAppend(wire', op'.value.Message(), bucket.Length);
    UnpackAllAppend(wire', op'.value.Message(), Separate);
  }

  /** Puts one chunk in the bucket being filled. */
  method Put(sendBuf: array<byte>, bucketMeta: seq<Placed>, offset: nat, c: Chunk) returns (bucketMeta': seq<Placed>)
    requires Below(bucketMeta, offset) && |c.bytes| == c.meta.chunkSize && offset + |c.bytes| <= sendBuf.Length
    modifies sendBuf
    ensures Below(bucketMeta', offset + |c.bytes|)
    ensures Views(bucketMeta', sendBuf[..], 0) == Views(bucketMeta, old(sendBuf[..]), 0) + [c.(at := offset)]
  {
    ghost var before := sendBuf[..];
    CopyInto(sendBuf, offset, c.bytes);
    assert sendBuf[..] == before[..offset] + c.bytes + before[offset + |c.bytes|..];
    bucketMeta' := bucketMeta + [Placed(c.meta, offset)];
    PutView(bucketMeta, offset, before, sendBuf[..], c);
  }

  method Has(bucketMeta: seq<Placed>, name: string, ghost bytes: seq<byte>, ghost cur: seq<Chunk>) returns (found: bool)
    requires Views(bucketMeta, bytes, 0) == PlacedIn(cur, 0)
    ensures found <==> HasName(cur, name)
  {
    HasAsName(bucketMeta, bytes, cur, name);
    found := exists k :: 0 <= k < |bucketMeta| && bucketMeta[k].meta.name == name;
  }

  /** The send loop's variables; `p` records what each buffer held when its
      broadcast started. The buffer in flight is never the one being filled. */
  datatype SendState = SendState(sendBuf: array<byte>, recvBuf: array<byte>, op: Option<BroadcastOperation>,
                                 wire: seq<Bucket>, bucketMeta: seq<Placed>, offset: nat)

  ghost predicate SameBuffers(s: SendState, a: array<byte>, b: array<byte>) {
    (s.sendBuf == a && s.recvBuf == b) || (s.sendBuf == b && s.recvBuf == a)
  }

  ghost predicate Holds(s: SendState, p: Progress, bucketSize: nat)
    reads s.sendBuf, s.recvBuf, if s.op.Some? then {s.op.value.bucket} else {}
  {
    && s.sendBuf != s.recvBuf && s.sendBuf.Length == s.recvBuf.Length == bucketSize
    && (s.op.Some? ==> s.op.value.bucket == s.recvBuf)
    && Open(Started(s.wire, s.op), bucketSize)
    && UnpackEach(Started(s.wire, s.op), Separate) == PlacedEach(p.sent, Separate, bucketSize)
    && Below(s.bucketMeta, s.offset) && Views(s.bucketMeta, s.sendBuf[..], 0) == PlacedIn(p.cur, 0)
    && s.offset == Size(p.cur) <= bucketSize
  }

  method MakeRoomFor(s: SendState, c: Chunk, ghost p: Progress, bucketSize: nat) returns (s': SendState)
    requires Holds(s, p, bucketSize) && c.meta.chunkSize <= bucketSize
    ensures Holds(s', MakeRoom(p, c, bucketSize), bucketSize) && s'.offset + c.meta.chunkSize <= bucketSize
    ensures SameBuffers(s', s.sendBuf, s.recvBuf)
  {
    s' := s;
    if s.offset + c.meta.chunkSize > bucketSize {
      PlacedEachAppend(p.sent, p.cur, Separate, bucketSize);
      var wire, op := StartBroadcast(s.wire, s.op, s.sendBuf, s.bucketMeta, false);
      s' := SendState(s.recvBuf, s.sendBuf, op, wire, [], 0);
    }
  }

  method Fill(s: SendState, c: Chunk, ghost p: Progress, bucketSize: nat) returns (s': SendState)
    requires Holds(s, p, bucketSize) && |c.bytes| == c.meta.chunkSize && s.offset + c.meta.chunkSize <= bucketSize
    modifies s.sendBuf
    ensures Holds(s', Place(p, c), bucketSize)
    ensures s'.sendBuf == s.sendBuf && s'.recvBuf == s.recvBuf
  {
    ghost var inFlight := s.recvBuf[..];
    var bucketMeta := Put(s.sendBuf, s.bucketMeta, s.offset, c);
    assert s.recvBuf[..] == inFlight;
    s' := s.(bucketMeta := bucketMeta, offset := s.offset + c.meta.chunkSize);
    SizeAppend(p.cur, c);
    PlacedAppend(p.cur, 0, c);
  }

  /** The send loop. Nothing is returned when the `tensor_meta.name not in
      bucket_meta` assertion fires. */
  method SendChunks(chunks: seq<Chunk>, bucketSize: nat, sendBuf: array<byte>, recvBuf: array<byte>)
    returns (r: Option<seq<Bucket>>)
    requires Fits(chunks, bucketSize) && SizesMatch(chunks)
    requires sendBuf.Length == recvBuf.Length == bucketSize && sendBuf != recvBuf
    modifies sendBuf, recvBuf
    ensures r.None? <==> RepeatsName([], chunks, bucketSize)
    ensures r.Some? ==> LastFlagged(r.value) && Carries(r.value, Pack(chunks, bucketSize), bucketSize)
  {
    var s := SendState(sendBuf, recvBuf, None, [], [], 0);
    ghost var p := Progress([], []);
    TargetStart(chunks, bucketSize);
    for i := 0 to |chunks|
      invariant Holds(s, p, bucketSize) && SameBuffers(s, sendBuf, recvBuf)
      invariant Pack(chunks, bucketSize) == Target(p, chunks[i..], bucketSize)
      invariant RepeatsName([], chunks, bucketSize) == RepeatsName(p.cur, chunks[i..], bucketSize)
    {
      var c := chunks[i];
      TargetStep(p, chunks, i, bucketSize);
      s := MakeRoomFor(s, c, p, bucketSize);
      p := MakeRoom(p, c, bucketSize);
      var found := Has(s.bucketMeta, c.meta.name, s.sendBuf[..], p.cur);
      if found {
        return None;
      }
      s := Fill(s, c, p, bucketSize);
      p := Place(p, c);
    }
    TargetEnd(p, chunks, bucketSize);
    PlacedEachAppend(p.sent, p.cur, Separate, bucketSize);
    var wire, op := StartBroadcast(s.wire, s.op, s.sendBuf, s.bucketMeta, true);
    wire := WaitForPrevious(wire, op);
    return Some(wire);
  }

  lemma TargetStart(chunks: seq<Chunk>, bucketSize: nat)
    ensures Target(Progress([], []), chunks[0..], bucketSize) == Pack(chunks, bucketSize) && chunks[0..] == chunks
  {
  }

  lemma TargetEnd(p: Progress, chunks: seq<Chunk>, bucketSize: nat)
    ensures Target(p, chunks[|chunks|..], bucketSize) == p.sent + [p.cur]
    ensures !RepeatsName(p.cur, chunks[|chunks|..], bucketSize)
  {
  }

  method SendWeights(weights: seq<Named>, bucketSize: nat, sendBuf: array<byte>, recvBuf: array<byte>)
    returns (r: Option<seq<Bucket>>)
    requires bucketSize > 0 && sendBuf.Length == recvBuf.Length == bucketSize && sendBuf != recvBuf
    modifies sendBuf, recvBuf
    ensures r.None? <==> !AllDistinct(Pack(Split(weights, bucketSize), bucketSize))
    ensures r.Some? ==>
              LastFlagged(r.value) && Carries(r.value, Pack(Split(weights, bucketSize), bucketSize), bucketSize)
  {
    var chunks := SplitWeightChunks(weights, bucketSize);
    SplitFits(weights, bucketSize);
    RepeatsNameIff([], chunks, bucketSize);
    r := SendChunks(chunks, bucketSize, sendBuf, recvBuf);
  }

  /** Yields the chunks lo..hi of a bucket. */
  method YieldChunks(meta: seq<Placed>, lo: nat, hi: nat, sendBuf: array<byte>, out: seq<Chunk>)
    returns (out': seq<Chunk>)
    requires lo <= hi <= |meta| && out == Views(meta[..lo], sendBuf[..], 0)
    ensures out' == Views(meta[..hi], sendBuf[..], 0)
  {
    out' := out;
    ghost var bytes := sendBuf[..];
    for j := lo to hi
      invariant out' == Views(meta[..j], bytes, 0)
    {
      out' := out' + [View(meta[j], sendBuf[..], 0)];
      ViewsPrefix(meta, j, bytes, 0);
    }
  }

  /** Yields the chunks of one bucket from `sendBuf`; the next message, if any,
      lands in `recvBuf` after some number of yields. */
  method YieldBucket(current: Bucket, next: Option<Bucket>, sendBuf: array<byte>, recvBuf: array<byte>)
    returns (out: seq<Chunk>)
    requires sendBuf != recvBuf && current.bytes == sendBuf[..]
    requires next.Some? ==> |next.value.bytes| == recvBuf.Length
    modifies recvBuf
    ensures out == Unpack(current, 0) && (next.Some? ==> recvBuf[..] == next.value.bytes)
  {
    var arrival: nat :| arrival <= |current.meta|;
    out := YieldChunks(current.meta, 0, arrival, sendBuf, []);
    if next.Some? {
      CopyInto(recvBuf, 0, next.value.bytes);
    }
    assert sendBuf[..] == current.bytes && current.meta[..|current.meta|] == current.meta;
    out := YieldChunks(current.meta, arrival, |current.meta|, sendBuf, out);
  }

  /** The loop ends at the flagged message, having yielded every chunk of every
      message from the buffer it arrived in. */
  method ReceiveWeightChunks(wire: seq<Bucket>, sendBuf0: array<byte>, recvBuf0: array<byte>)
    returns (out: seq<Chunk>)
    requires sendBuf0 != recvBuf0 && sendBuf0.Length == recvBuf0.Length
    requires LastFlagged(wire) && FullBuffers(wire, sendBuf0.Length)
    modifies sendBuf0, recvBuf0
    ensures out == UnpackAll(wire, Separate)
  {
    out := [];
    var sendBuf, recvBuf := sendBuf0, recvBuf0;
    CopyInto(recvBuf, 0, wire[0].bytes);
    sendBuf, recvBuf := recvBuf, sendBuf;
    var k := 0;
    while !wire[k].isLast
      invariant 0 <= k < |wire| && sendBuf[..] == wire[k].bytes
      invariant (sendBuf == sendBuf0 && recvBuf == recvBuf0) || (sendBuf == recvBuf0 && recvBuf == sendBuf0)
      invariant out == UnpackAll(wire[..k], Separate)
      decreases |wire| - k
    {
      var yielded := YieldBucket(wire[k], Some(wire[k + 1]), sendBuf, recvBuf);
      assert wire[..k + 1] == wire[..k] + [wire[k]];
      UnpackAllAppend(wire[..k], wire[k], Separate);
      out := out + yielded;
      k := k + 1;
      sendBuf, recvBuf := recvBuf, sendBuf;
    }
    var yielded := YieldBucket(wire[k], None, sendBuf, recvBuf);
    assert wire == wire[..k] + [wire[k]];
    UnpackAllAppend(wire[..k], wire[k], Separate);
    out := out + yielded;
  }

  // ---------- end to end ----------

  /** One weight synchronisation, from the trainer's tensors to those a rollout
      worker yields: bit for bit and in order, if and only if every unsplit tensor lies
      at a multiple of its item size in its bucket; no assertion fires on either side. */
  method SynchroniseWeights(weights: seq<Named>, bucketSize: nat,
                            senderA: array<byte>, senderB: array<byte>,
                            receiverA: array<byte>, receiverB: array<byte>) returns (received: Merged)
    requires bucketSize > 0 && AllValid(weights) && DistinctWeights(weights)
    requires senderA != senderB && senderA.Length == senderB.Length == bucketSize
    requires receiverA != receiverB && receiverA.Length == receiverB.Length == bucketSize
    modifies senderA, senderB, receiverA, receiverB
    ensures Delivers(received, weights, bucketSize)
  {
    SenderNeverFails(weights, bucketSize);
    var sent := SendWeights(weights, bucketSize, senderA, senderB);
    var wire := sent.value;
    WireDelivers(weights, bucketSize, wire);
    var chunks := ReceiveWeightChunks(wire, receiverA, receiverB);
    received := MergeWeightChunks(chunks, bucketSize);
  }
}
