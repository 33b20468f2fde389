/** Cutting named tensors into byte chunks and merging the chunks back
    (verl/checkpoint_engine/base.py, split_weight_chunks and merge_weight_chunks).

    A generator is modelled by the sequence of items it yields. */
module WeightChunks {
  import opened Arithmetic
  import opened Wrappers

  newtype byte = b: int | 0 <= b < 256

  datatype DType = DType(name: string, itemsize: nat)

  datatype Tensor = Tensor(shape: seq<nat>, dtype: DType, bytes: seq<byte>) {
    predicate Valid() {
      |bytes| == Numel(shape) * dtype.itemsize
    }
  }

  datatype Named = Named(name: string, tensor: Tensor)

  /** The chunk's description; its place in a bucket is kept beside it, in `Buckets.Placed`. */
  datatype TensorMeta = TensorMeta(name: string, shape: seq<nat>, dtype: DType, chunkOffset: nat, chunkSize: nat) {
    function NBytes(): nat {
      Numel(shape) * dtype.itemsize
    }
  }

  /** A slice of a buffer of bytes, which begins at byte `at` of the buffer. */
  datatype Chunk = Chunk(meta: TensorMeta, bytes: seq<byte>, at: nat)

  function Numel(shape: seq<nat>): nat {
    if shape == [] then 1 else shape[0] * Numel(shape[1..])
  }

  predicate AllValid(weights: seq<Named>) {
    forall i :: 0 <= i < |weights| ==> weights[i].tensor.Valid()
  }

  // ---------- split_weight_chunks ----------

  function ChunkAt(w: Named, bucketSize: nat, from: nat): (c: Chunk)
    requires from < |w.tensor.bytes|
  {
    var size := Min(bucketSize, |w.tensor.bytes| - from);
    Chunk(TensorMeta(w.name, w.tensor.shape, w.tensor.dtype, from, size), w.tensor.bytes[from..from + size], from)
  }

  /** The chunks of one tensor from byte `from` on. */
  function SplitTensor(w: Named, bucketSize: nat, from: nat): seq<Chunk>
    requires bucketSize > 0
    decreases |w.tensor.bytes| - from
  {
    if from >= |w.tensor.bytes| then [] else
      var c := ChunkAt(w, bucketSize, from);
      [c] + SplitTensor(w, bucketSize, from + c.meta.chunkSize)
  }

  function Split(weights: seq<Named>, bucketSize: nat): seq<Chunk>
    requires bucketSize > 0
  {
    if weights == [] then []
    else SplitTensor(weights[0], bucketSize, 0) + Split(weights[1..], bucketSize)
  }

  lemma {:induction false} SplitAppend(ws: seq<Named>, w: Named, bucketSize: nat)
    requires bucketSize > 0
    ensures Split(ws + [w], bucketSize) == Split(ws, bucketSize) + SplitTensor(w, bucketSize, 0)
  {
    if ws == [] {
      assert Split([w][1..], bucketSize) == [];
    } else {
      assert (ws + [w])[1..] == ws[1..] + [w];
      SplitAppend(ws[1..], w, bucketSize);
    }
  }

  /** Tensors of no bytes yield no chunk, because the loop guard fails at once. */
  method SplitWeightChunks(weights: seq<Named>, bucketSize: nat) returns (chunks: seq<Chunk>)
    requires bucketSize > 0
    ensures chunks == Split(weights, bucketSize)
  {
    chunks := [];
    for i := 0 to |weights|
      invariant chunks == Split(weights[..i], bucketSize)
    {
      var w := weights[i];
      var buffer := w.tensor.bytes;
      var chunkOffset := 0;
      ghost var before := chunks;
      while chunkOffset < |buffer|
        invariant 0 <= chunkOffset <= |buffer|
        invariant chunks + SplitTensor(w, bucketSize, chunkOffset) == before + SplitTensor(w, bucketSize, 0)
      {
        var chunkSize := Min(bucketSize, |buffer| - chunkOffset);
        var meta := TensorMeta(w.name, w.tensor.shape, w.tensor.dtype, chunkOffset, chunkSize);
        chunks := chunks + [Chunk(meta, buffer[chunkOffset..chunkOffset + chunkSize], chunkOffset)];
        chunkOffset := chunkOffset + chunkSize;
      }
      assert weights[..i + 1] == weights[..i] + [w];
      SplitAppend(weights[..i], w, bucketSize);
    }
    assert weights[..|weights|] == weights;
  }

  // ---------- merge_weight_chunks ----------

  /** The assertions and the failing tensor operations of the merge loop. */
  datatype MergeError =
    | WeightPending      // a small tensor arrived while a large one was unfinished
    | ShapeMismatch      // chunk.view(dtype).view(shape) on a chunk of another size
    | ViewMisaligned     // chunk.view(dtype) on a chunk that begins within an item
    | FirstChunkMissing  // a merge must start at chunk offset 0
    | NameMismatch
    | OffsetMismatch
    | SizeMismatch       // assignment to a slice of another size

  /** What the generator yielded, and how it ended. A tensor that was closed before its
      buffer was full has only the bytes written; the others are uninitialised. */
  datatype Merged = Merged(yielded: seq<Named>, failure: Option<MergeError>)

  /** While a large tensor is assembled: its description from its first chunk, the
      running offset, and the bytes written, which are a prefix of its buffer. */
  datatype MergeState = Idle | Merging(name: string, shape: seq<nat>, dtype: DType, offset: nat, filled: seq<byte>)

  datatype MergeStepResult = Next(state: MergeState, item: Option<Named>) | Fail(error: MergeError)

  /** The size of the slice [from : from + size] of a buffer, which is clipped at its end. */
  function SliceSize(from: nat, size: nat, length: nat): nat {
    Min(from + size, length) - Min(from, length)
  }

  /** What is assigned to a slice of n bytes; a single byte fills it. */
  function Broadcast(bytes: seq<byte>, n: nat): (r: seq<byte>)
    requires |bytes| == n || |bytes| == 1
    ensures |r| == n && (|bytes| == n ==> r == bytes)
  {
    if |bytes| == n then bytes else seq(n, _ => bytes[0])
  }

  /** The bytes are whole items: view(dtype) checks the size before the place. */
  predicate WholeItems(n: nat, itemsize: nat) {
    itemsize > 1 ==> n % itemsize == 0
  }

  /** Why chunk.view(dtype).view(shape) fails, if it does. */
  function ViewError(c: Chunk): Option<MergeError> {
    if !WholeItems(|c.bytes|, c.meta.dtype.itemsize) then Some(ShapeMismatch)
    else if !WholeItems(c.at, c.meta.dtype.itemsize) then Some(ViewMisaligned)
    else if |c.bytes| != c.meta.NBytes() then Some(ShapeMismatch)
    else None
  }

  function TensorOf(c: Chunk): Named {
    Named(c.meta.name, Tensor(c.meta.shape, c.meta.dtype, c.bytes))
  }

  function MergeStep(state: MergeState, c: Chunk, bucketSize: nat): MergeStepResult {
    var m := c.meta;
    if m.NBytes() <= bucketSize then
      if state != Idle then Fail(WeightPending)
      else if ViewError(c).Some? then Fail(ViewError(c).value)
      else Next(Idle, Some(TensorOf(c)))
    else if state == Idle && m.chunkOffset != 0 then Fail(FirstChunkMissing)
    else
      var cur := if state == Idle then MergingOf(m, 0, []) else state;
      if m.name != cur.name then Fail(NameMismatch)
      else if m.chunkOffset != cur.offset then Fail(OffsetMismatch)
      else
        var room := SliceSize(m.chunkOffset, m.chunkSize, Numel(cur.shape) * cur.dtype.itemsize);
        if |c.bytes| != room && |c.bytes| != 1 then Fail(SizeMismatch)
        else
          var filled := cur.filled + Broadcast(c.bytes, room);
          if m.chunkOffset + m.chunkSize == m.NBytes()
          then Next(Idle, Some(Named(cur.name, Tensor(cur.shape, cur.dtype, filled))))
          else Next(cur.(offset := cur.offset + m.chunkSize, filled := filled), None)
  }

  function MergeFrom(state: MergeState, chunks: seq<Chunk>, bucketSize: nat): Merged
    decreases chunks
  {
    if chunks == [] then Merged([], None) else
      match MergeStep(state, chunks[0], bucketSize)
      case Fail(e) => Merged([], Some(e))
      case Next(state', item) =>
        Prepend(if item.Some? then [item.value] else [], MergeFrom(state', chunks[1..], bucketSize))
  }

  function Prepend(items: seq<Named>, m: Merged): Merged {
    Merged(items + m.yielded, m.failure)
  }

  function MergingOf(m: TensorMeta, offset: nat, filled: seq<byte>): MergeState {
    Merging(m.name, m.shape, m.dtype, offset, filled)
  }

  function Merge(chunks: seq<Chunk>, bucketSize: nat): Merged {
    MergeFrom(Idle, chunks, bucketSize)
  }

  /** The loop variables of merge_weight_chunks. A large tensor is assembled in
      place, in a buffer of its full size; `State` keeps the bytes written so far. */
  class Merger {
    var merging: bool
    var head: TensorMeta  // merge_name and the shape and dtype of merge_weight
    var mergeOffset: nat
    var mergeBuffer: array<byte>

    ghost predicate Valid()
      reads this, mergeBuffer
    {
      merging ==> mergeBuffer.Length == head.NBytes()
    }

    ghost function State(): MergeState
      requires Valid()
      reads this, mergeBuffer
    {
      if merging then MergingOf(head, mergeOffset, mergeBuffer[..Min(mergeOffset, mergeBuffer.Length)]) else Idle
    }

    constructor ()
      ensures Valid() && State() == Idle && fresh(mergeBuffer)
    {
      merging, mergeOffset, head := false, 0, TensorMeta("", [], DType("", 0), 0, 0);
      mergeBuffer := new byte[0];
    }

    /** One iteration of the loop. */
    method Accept(c: Chunk, bucketSize: nat) returns (item: Option<Named>, failure: Option<MergeError>)
      requires Valid()
      modifies this, mergeBuffer
      ensures fresh(mergeBuffer) || mergeBuffer == old(mergeBuffer)
      ensures failure.Some? ==> MergeStep(old(State()), c, bucketSize) == Fail(failure.value)
      ensures failure.None? ==> Valid() && MergeStep(old(State()), c, bucketSize) == Next(State(), item)
    {
      var m, bytes := c.meta, c.bytes;
      var nbytes := m.NBytes();
      if nbytes <= bucketSize {
        if merging { return None, Some(WeightPending); }
        if !WholeItems(|bytes|, m.dtype.itemsize) { return None, Some(ShapeMismatch); }
        if !WholeItems(c.at, m.dtype.itemsize) { return None, Some(ViewMisaligned); }
        if |bytes| != nbytes { return None, Some(ShapeMismatch); }
        return Some(Named(m.name, Tensor(m.shape, m.dtype, bytes))), None;
      }
      if !merging {
        if m.chunkOffset != 0 { return None, Some(FirstChunkMissing); }
        merging, head, mergeOffset := true, m, 0;
        mergeBuffer := new byte[nbytes];
      }
      if m.name != head.name { return None, Some(NameMismatch); }
      if mergeOffset != m.chunkOffset { return None, Some(OffsetMismatch); }
      var room := SliceSize(mergeOffset, m.chunkSize, mergeBuffer.Length);
      if |bytes| != room && |bytes| != 1 { return None, Some(SizeMismatch); }
      var from := Min(mergeOffset, mergeBuffer.Length);
      ghost var filled := mergeBuffer[..from];
      CopyInto(mergeBuffer, from, Broadcast(bytes, room));
      mergeOffset := mergeOffset + m.chunkSize;
      assert mergeBuffer[..from + room] == filled + Broadcast(bytes, room);
      if m.chunkOffset + m.chunkSize == nbytes {
        merging := false;
        return Some(Named(head.name, Tensor(head.shape, head.dtype, mergeBuffer[..from + room]))), None;
      }
      return None, None;
    }
  }

  method MergeWeightChunks(chunks: seq<Chunk>, bucketSize: nat) returns (r: Merged)
    ensures r == Merge(chunks, bucketSize)
  {
    var yielded: seq<Named> := [];
    var merger := new Merger();
    ghost var rest := Merge(chunks, bucketSize);
    for i := 0 to |chunks|
      invariant merger.Valid() && fresh(merger) && fresh(merger.mergeBuffer)
      invariant rest == MergeFrom(merger.State(), chunks[i..], bucketSize)
      invariant Merge(chunks, bucketSize) == Prepend(yielded, rest)
    {
      ghost var state := merger.State();
      var item, failure := merger.Accept(chunks[i], bucketSize);
      if failure.Some? {
        MergeFromFail(state, chunks, i, bucketSize, failure.value);
        PrependTwice(yielded, [], rest);
        return Merged(yielded, failure);
      }
      MergeFromNext(state, chunks, i, bucketSize, merger.State(), item);
      var items := if item.Some? then [item.value] else [];
      rest := MergeFrom(merger.State(), chunks[i + 1..], bucketSize);
      PrependTwice(yielded, items, rest);
      yielded := yielded + items;
    }
    return Merged(yielded, None);
  }

  lemma PrependTwice(a: seq<Named>, b: seq<Named>, m: Merged)
    ensures Prepend(a, Prepend(b, m)) == Prepend(a + b, m)
    ensures Prepend(a, Merged([], m.failure)) == Merged(a, m.failure)
  {
    assert a + (b + m.yielded) == a + b + m.yielded;
    assert a + [] == a;
  }

  lemma MergeFromFail(state: MergeState, chunks: seq<Chunk>, i: nat, bucketSize: nat, e: MergeError)
    requires i < |chunks| && MergeStep(state, chunks[i], bucketSize) == Fail(e)
    ensures MergeFrom(state, chunks[i..], bucketSize) == Merged([], Some(e))
  {
  }

  lemma MergeFromNext(state: MergeState, chunks: seq<Chunk>, i: nat, bucketSize: nat,
                      state': MergeState, item: Option<Named>)
    requires i < |chunks| && MergeStep(state, chunks[i], bucketSize) == Next(state', item)
    ensures MergeFrom(state, chunks[i..], bucketSize) ==
            Prepend(if item.Some? then [item.value] else [], MergeFrom(state', chunks[i + 1..], bucketSize))
  {
    assert chunks[i..][1..] == chunks[i + 1..];
  }

  /** buffer[at : at + |bytes|] = bytes, on a fixed-size buffer. */
  method CopyInto(buffer: array<byte>, at: nat, bytes: seq<byte>)
    requires at + |bytes| <= buffer.Length
    modifies buffer
    ensures buffer[..] == old(buffer[..at]) + bytes + old(buffer[at + |bytes|..])
  {
    forall j | 0 <= j < |bytes| {
      buffer[at + j] := bytes[j];
    }
  }

  // ---------- which chunks can be merged ----------

  predicate IsSmall(c: Chunk, bucketSize: nat) {
    c.meta.NBytes() <= bucketSize
  }

  /** The chunk ends its tensor, by its own description. */
  predicate EndsTensor(c: Chunk, bucketSize: nat) {
    IsSmall(c, bucketSize) || c.meta.chunkOffset + c.meta.chunkSize == c.meta.NBytes()
  }

  /** The first chunk of the large tensor that is unfinished before chunk i, if any. */
  function Opened(chunks: seq<Chunk>, bucketSize: nat, i: nat): (r: Option<nat>)
    requires i <= |chunks|
    ensures r.Some? ==> r.value < i
  {
    if i == 0 || EndsTensor(chunks[i - 1], bucketSize) then None
    else if Opened(chunks, bucketSize, i - 1).Some? then Opened(chunks, bucketSize, i - 1)
    else Some(i - 1)
  }

  /** The bytes fill their place in a tensor of the head's size, or one byte fills it all. */
  predicate FillsPlace(c: Chunk, head: Chunk) {
    || |c.bytes| == 1
    || |c.bytes| == SliceSize(c.meta.chunkOffset, c.meta.chunkSize, head.meta.NBytes())
  }

  /** Chunk i can come where it comes: a small tensor whole, at a multiple of its item
      size and between tensors; the first chunk of a large one at offset 0; a later one
      under the name of the first, where the one before ended. */
  predicate CanCome(chunks: seq<Chunk>, bucketSize: nat, i: nat)
    requires i < |chunks|
  {
    var c := chunks[i];
    match Opened(chunks, bucketSize, i)
    case None =>
      if IsSmall(c, bucketSize) then |c.bytes| == c.meta.NBytes() && WholeItems(c.at, c.meta.dtype.itemsize)
      else c.meta.chunkOffset == 0 && FillsPlace(c, c)
    case Some(h) =>
      && !IsSmall(c, bucketSize) && c.meta.name == chunks[h].meta.name
      && c.meta.chunkOffset == chunks[i - 1].meta.chunkOffset + chunks[i - 1].meta.chunkSize
      && FillsPlace(c, chunks[h])
  }

  /** What the merge remembers before chunk i. */
  predicate Remembers(state: MergeState, chunks: seq<Chunk>, bucketSize: nat, i: nat)
    requires i <= |chunks|
  {
    match Opened(chunks, bucketSize, i)
    case None => state == Idle
    case Some(h) =>
      && state.Merging? && state.name == chunks[h].meta.name
      && state.shape == chunks[h].meta.shape && state.dtype == chunks[h].meta.dtype
      && state.offset == chunks[i - 1].meta.chunkOffset + chunks[i - 1].meta.chunkSize
  }

  lemma WholeWhenComplete(c: Chunk)
    requires |c.bytes| == c.meta.NBytes()
    ensures WholeItems(|c.bytes|, c.meta.dtype.itemsize)
  {
    if c.meta.dtype.itemsize > 1 {
      DivExact(Numel(c.meta.shape), c.meta.dtype.itemsize);
    }
  }

  lemma StepOkIff(state: MergeState, chunks: seq<Chunk>, bucketSize: nat, i: nat)
    requires i < |chunks| && Remembers(state, chunks, bucketSize, i)
    ensures MergeStep(state, chunks[i], bucketSize).Next? <==> CanCome(chunks, bucketSize, i)
    ensures CanCome(chunks, bucketSize, i) ==>
              Remembers(MergeStep(state, chunks[i], bucketSize).state, chunks, bucketSize, i + 1)
  {
    if |chunks[i].bytes| == chunks[i].meta.NBytes() {
      WholeWhenComplete(chunks[i]);
    }
  }

  lemma {:induction false} MergeOkFrom(state: MergeState, chunks: seq<Chunk>, bucketSize: nat, i: nat)
    requires i <= |chunks| && Remembers(state, chunks, bucketSize, i)
    ensures MergeFrom(state, chunks[i..], bucketSize).failure.None?
            <==> forall k :: i <= k < |chunks| ==> CanCome(chunks, bucketSize, k)
    decreases |chunks| - i
  {
    if i < |chunks| {
      StepOkIff(state, chunks, bucketSize, i);
      assert chunks[i..][0] == chunks[i] && chunks[i..][1..] == chunks[i + 1..];
      if CanCome(chunks, bucketSize, i) {
        MergeOkFrom(MergeStep(state, chunks[i], bucketSize).state, chunks, bucketSize, i + 1);
      }
    }
  }

  /** Merging arbitrary chunks succeeds if and only if each can come where it comes. */
  lemma MergeOkIff(chunks: seq<Chunk>, bucketSize: nat)
    ensures Merge(chunks, bucketSize).failure.None?
            <==> forall k :: 0 <= k < |chunks| ==> CanCome(chunks, bucketSize, k)
  {
    MergeOkFrom(Idle, chunks, bucketSize, 0);
    assert chunks[0..] == chunks;
  }

  // ---------- merge after split ----------

  function NonEmpty(weights: seq<Named>): seq<Named> {
    if weights == [] then []
    else (if |weights[0].tensor.bytes| > 0 then [weights[0]] else []) + NonEmpty(weights[1..])
  }

  function StateAt(w: Named, from: nat): MergeState
    requires from <= |w.tensor.bytes|
  {
    if from == 0 then Idle else Merging(w.name, w.tensor.shape, w.tensor.dtype, from, w.tensor.bytes[..from])
  }

  lemma WholeSum(a: nat, b: nat, itemsize: nat)
    requires WholeItems(a, itemsize)
    ensures WholeItems(a + b, itemsize) <==> WholeItems(b, itemsize)
  {
    if itemsize > 1 {
      var q, r, s := a / itemsize, b / itemsize, b % itemsize;
      DivMod(a, itemsize, q, 0);
      DivMod(b, itemsize, r, s);
      Distribute(q, r, itemsize);
      ModOf(q + r, itemsize, s);
    }
  }

  lemma ItemsAreWhole(n: nat, itemsize: nat)
    ensures WholeItems(n * itemsize, itemsize)
  {
    if itemsize > 1 {
      DivExact(n, itemsize);
    }
  }

  /** One chunk of a tensor takes the merge from one state to the next. */
  lemma MergeOneChunk(w: Named, bucketSize: nat, from: nat)
    requires bucketSize > 0 && w.tensor.Valid()
    requires from < |w.tensor.bytes| && (|w.tensor.bytes| <= bucketSize ==> from == 0)
    ensures var c := ChunkAt(w, bucketSize, from);
            var next := from + c.meta.chunkSize;
            MergeStep(StateAt(w, from), c, bucketSize) ==
            if next == |w.tensor.bytes| then Next(Idle, Some(w)) else Next(StateAt(w, next), None)
  {
    var c := ChunkAt(w, bucketSize, from);
    if |w.tensor.bytes| <= bucketSize {
      ItemsAreWhole(Numel(w.tensor.shape), w.tensor.dtype.itemsize);
    }
    assert w.tensor.bytes[..from] + c.bytes == w.tensor.bytes[..from + c.meta.chunkSize];
    assert w.tensor.bytes[..|w.tensor.bytes|] == w.tensor.bytes;
  }

  /** The chunks of one tensor, followed by any others, merge to that tensor and
      leave the merge idle. */
  lemma {:induction false} MergeOneTensor(w: Named, bucketSize: nat, from: nat, rest: seq<Chunk>)
    requires bucketSize > 0 && w.tensor.Valid()
    requires from < |w.tensor.bytes| && (|w.tensor.bytes| <= bucketSize ==> from == 0)
    ensures MergeFrom(StateAt(w, from), SplitTensor(w, bucketSize, from) + rest, bucketSize) ==
            Prepend([w], Merge(rest, bucketSize))
    decreases |w.tensor.bytes| - from
  {
    var c := ChunkAt(w, bucketSize, from);
    var next := from + c.meta.chunkSize;
    var tail := SplitTensor(w, bucketSize, next) + rest;
    MergeOneChunk(w, bucketSize, from);
    assert SplitTensor(w, bucketSize, from) + rest == [c] + tail && ([c] + tail)[1..] == tail;
    if next == |w.tensor.bytes| {
      assert tail == rest;
      MergeFromNext(StateAt(w, from), [c] + tail, 0, bucketSize, Idle, Some(w));
    } else {
      MergeFromNext(StateAt(w, from), [c] + tail, 0, bucketSize, StateAt(w, next), None);
      MergeOneTensor(w, bucketSize, next, rest);
    }
    assert ([c] + tail)[0..] == [c] + tail;
  }

  /** Merging after splitting gives back exactly the tensors that have bytes, in
      order, and no assertion of the merge loop fires. */
  lemma {:induction false} MergeAfterSplit(weights: seq<Named>, bucketSize: nat)
    requires bucketSize > 0 && AllValid(weights)
    ensures Merge(Split(weights, bucketSize), bucketSize) == Merged(NonEmpty(weights), None)
  {
    if weights != [] {
      var w := weights[0];
      MergeAfterSplit(weights[1..], bucketSize);
      if |w.tensor.bytes| > 0 {
        MergeOneTensor(w, bucketSize, 0, Split(weights[1..], bucketSize));
      } else {
        assert Split(weights, bucketSize) == Split(weights[1..], bucketSize);
      }
    }
  }

  // ---------- chunks at other places ----------

  /** The same chunks, wherever they begin. */
  predicate SameChunks(chunks: seq<Chunk>, others: seq<Chunk>) {
    |chunks| == |others| && forall i :: 0 <= i < |chunks| ==> chunks[i] == others[i].(at := chunks[i].at)
  }

  /** The view of a chunk that is a whole tensor begins at an item. */
  predicate ViewAligned(c: Chunk, bucketSize: nat) {
    c.meta.NBytes() <= bucketSize ==> WholeItems(c.at, c.meta.dtype.itemsize)
  }

  predicate ViewsAligned(chunks: seq<Chunk>, bucketSize: nat) {
    forall i :: 0 <= i < |chunks| ==> ViewAligned(chunks[i], bucketSize)
  }

  lemma AlignedFirst(chunks: seq<Chunk>, bucketSize: nat)
    requires chunks != []
    ensures ViewsAligned(chunks, bucketSize)
            <==> ViewAligned(chunks[0], bucketSize) && ViewsAligned(chunks[1..], bucketSize)
  {
    assert chunks == [chunks[0]] + chunks[1..];
  }

  lemma MoveStep(state: MergeState, c: Chunk, moved: Chunk, bucketSize: nat)
    requires moved == c.(at := moved.at) && MergeStep(state, c, bucketSize).Next?
    ensures MergeStep(state, moved, bucketSize)
            == if ViewAligned(moved, bucketSize) then MergeStep(state, c, bucketSize) else Fail(ViewMisaligned)
  {
  }

  lemma MergeFirst(state: MergeState, chunks: seq<Chunk>, bucketSize: nat)
    requires chunks != []
    ensures var next := MergeStep(state, chunks[0], bucketSize);
            MergeFrom(state, chunks, bucketSize)
            == if next.Fail? then Merged([], Some(next.error))
               else Prepend(if next.item.Some? then [next.item.value] else [],
                            MergeFrom(next.state, chunks[1..], bucketSize))
  {
  }

  /** `moved` ends as `m` does, or fails at a view on the way. */
  predicate SameOrMisaligned(moved: Merged, m: Merged, aligned: bool) {
    if aligned then moved == m else moved.failure == Some(ViewMisaligned) && moved.yielded <= m.yielded
  }

  lemma PrependMoved(items: seq<Named>, moved: Merged, m: Merged, aligned: bool)
    requires SameOrMisaligned(moved, m, aligned)
    ensures SameOrMisaligned(Prepend(items, moved), Prepend(items, m), aligned)
  {
  }

  /** Moving the chunks of a merge that succeeds elsewhere, it succeeds with the same
      tensors if and only if every whole tensor begins at an item; otherwise a view fails. */
  lemma {:induction false} MergeMovedIff(state: MergeState, chunks: seq<Chunk>, moved: seq<Chunk>, bucketSize: nat)
    requires SameChunks(moved, chunks) && MergeFrom(state, chunks, bucketSize).failure.None?
    ensures SameOrMisaligned(MergeFrom(state, moved, bucketSize), MergeFrom(state, chunks, bucketSize),
                             ViewsAligned(moved, bucketSize))
    decreases chunks
  {
    if chunks != [] {
      MergeFirst(state, chunks, bucketSize);
      MergeFirst(state, moved, bucketSize);
      MoveStep(state, chunks[0], moved[0], bucketSize);
      AlignedFirst(moved, bucketSize);
      if ViewAligned(moved[0], bucketSize) {
        var next := MergeStep(state, chunks[0], bucketSize);
        MergeMovedIff(next.state, chunks[1..], moved[1..], bucketSize);
        PrependMoved(if next.item.Some? then [next.item.value] else [],
                     MergeFrom(next.state, moved[1..], bucketSize), MergeFrom(next.state, chunks[1..], bucketSize),
                     ViewsAligned(moved[1..], bucketSize));
      }
    }
  }

  /** A merge that succeeds has not failed at any earlier moment. */
  lemma {:induction false} MergePrefix(state: MergeState, chunks: seq<Chunk>, n: nat, bucketSize: nat)
    requires n <= |chunks| && MergeFrom(state, chunks, bucketSize).failure.None?
    ensures var m := MergeFrom(state, chunks[..n], bucketSize);
            m.failure.None? && m.yielded <= MergeFrom(state, chunks, bucketSize).yielded
    decreases chunks
  {
    if n > 0 {
      var next := MergeStep(state, chunks[0], bucketSize);
      MergeFirst(state, chunks, bucketSize);
      MergeFirst(state, chunks[..n], bucketSize);
      assert chunks[..n][1..] == chunks[1..][..n - 1];
      MergePrefix(next.state, chunks[1..], n - 1, bucketSize);
    }
  }

  lemma {:induction false} NonEmptyShrinks(weights: seq<Named>)
    ensures |NonEmpty(weights)| <= |weights|
    ensures NonEmpty(weights) == weights <==> forall i :: 0 <= i < |weights| ==> |weights[i].tensor.bytes| > 0
  {
    if weights != [] {
      NonEmptyShrinks(weights[1..]);
      assert weights == [weights[0]] + weights[1..];
      if |weights[0].tensor.bytes| > 0 {
        assert NonEmpty(weights)[1..] == NonEmpty(weights[1..]);
        if forall i :: 0 <= i < |weights[1..]| ==> |weights[1..][i].tensor.bytes| > 0 {
          forall i | 0 <= i < |weights| ensures |weights[i].tensor.bytes| > 0 {
            if i > 0 { assert weights[i] == weights[1..][i - 1]; }
          }
        } else {
          var i :| 0 <= i < |weights[1..]| && |weights[1..][i].tensor.bytes| == 0;
          assert |weights[i + 1].tensor.bytes| == 0;
        }
      } else {
        assert |NonEmpty(weights)| < |weights|;
      }
    }
  }

  /** The transfer of the chunks is the identity exactly when every tensor has bytes. */
  lemma RoundTripIffNoEmptyTensor(weights: seq<Named>, bucketSize: nat)
    requires bucketSize > 0 && AllValid(weights)
    ensures Merge(Split(weights, bucketSize), bucketSize) == Merged(weights, None)
            <==> forall i :: 0 <= i < |weights| ==> |weights[i].tensor.bytes| > 0
  {
    MergeAfterSplit(weights, bucketSize);
    NonEmptyShrinks(weights);
  }
}
