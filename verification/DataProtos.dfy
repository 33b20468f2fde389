/** Batches of rows and their dispatch over workers (verl/protocol.py:
    pad_dataproto_to_divisor, unpad_dataproto, DataProto.chunk, DataProto.concat).

    A batch has a block of tensor rows, or none, and named non-tensor columns. Its
    rows are what the claims are about: row i takes entry i of every part. */
module DataProtos {
  import opened Arithmetic
  import opened Chunking
  import opened Wrappers

  datatype DataProto<R, V> = DataProto(batch: Option<seq<R>>, nonTensor: map<string, seq<V>>)

  datatype Row<R, V> = Row(tensor: Option<R>, nonTensor: map<string, V>)

  /** What two batches must share to be concatenated. */
  datatype Kind = Kind(hasBatch: bool, keys: set<string>)

  function KindOf<R, V>(d: DataProto<R, V>): Kind {
    Kind(d.batch.Some?, d.nonTensor.Keys)
  }

  /** All parts have n rows, and there is some part. */
  predicate Sized<R, V>(d: DataProto<R, V>, n: nat) {
    && (d.batch.Some? || d.nonTensor.Keys != {})
    && (d.batch.Some? ==> |d.batch.value| == n)
    && forall k :: k in d.nonTensor ==> |d.nonTensor[k]| == n
  }

  function RowAt<R, V>(d: DataProto<R, V>, n: nat, i: nat): Row<R, V>
    requires Sized(d, n) && i < n
  {
    Row(if d.batch.Some? then Some(d.batch.value[i]) else None, map k | k in d.nonTensor :: d.nonTensor[k][i])
  }

  function RowsOf<R, V>(d: DataProto<R, V>, n: nat): (r: seq<Row<R, V>>)
    requires Sized(d, n)
    ensures |r| == n
  {
    seq(n, i requires 0 <= i < n => RowAt(d, n, i))
  }

  lemma SameColumn<R, V>(a: DataProto<R, V>, b: DataProto<R, V>, n: nat, k: string)
    requires Sized(a, n) && Sized(b, n) && RowsOf(a, n) == RowsOf(b, n) && k in a.nonTensor && k in b.nonTensor
    ensures a.nonTensor[k] == b.nonTensor[k]
  {
    forall i | 0 <= i < n ensures a.nonTensor[k][i] == b.nonTensor[k][i] {
      assert RowsOf(a, n)[i].nonTensor[k] == RowsOf(b, n)[i].nonTensor[k];
    }
  }

  /** Batches with the same parts and the same rows are the same. */
  lemma RowsDetermine<R, V>(a: DataProto<R, V>, b: DataProto<R, V>, n: nat)
    requires Sized(a, n) && Sized(b, n) && KindOf(a) == KindOf(b) && RowsOf(a, n) == RowsOf(b, n)
    ensures a == b
  {
    if a.batch.Some? {
      forall i | 0 <= i < n ensures a.batch.value[i] == b.batch.value[i] {
        assert RowsOf(a, n)[i].tensor == RowsOf(b, n)[i].tensor;
      }
      assert a.batch.value == b.batch.value;
    }
    forall k | k in a.nonTensor ensures a.nonTensor[k] == b.nonTensor[k] {
      SameColumn(a, b, n, k);
    }
  }

  // ---------- slices and concatenation ----------

  function Slice<R, V>(d: DataProto<R, V>, n: nat, lo: nat, hi: nat): (r: DataProto<R, V>)
    requires Sized(d, n) && lo <= hi <= n
    ensures Sized(r, hi - lo) && KindOf(r) == KindOf(d)
  {
    DataProto(if d.batch.Some? then Some(d.batch.value[lo..hi]) else None,
              map k | k in d.nonTensor :: d.nonTensor[k][lo..hi])
  }

  lemma SliceRow<R, V>(d: DataProto<R, V>, n: nat, lo: nat, hi: nat, i: nat)
    requires Sized(d, n) && lo <= hi <= n && i < hi - lo
    ensures RowAt(Slice(d, n, lo, hi), hi - lo, i) == RowAt(d, n, lo + i)
  {
    var x, y := RowAt(Slice(d, n, lo, hi), hi - lo, i), RowAt(d, n, lo + i);
    assert x.tensor == y.tensor && x.nonTensor.Keys == y.nonTensor.Keys;
    forall k | k in x.nonTensor ensures x.nonTensor[k] == y.nonTensor[k] {
      assert Slice(d, n, lo, hi).nonTensor[k] == d.nonTensor[k][lo..hi];
    }
  }

  lemma SliceRows<R, V>(d: DataProto<R, V>, n: nat, lo: nat, hi: nat)
    requires Sized(d, n) && lo <= hi <= n
    ensures RowsOf(Slice(d, n, lo, hi), hi - lo) == RowsOf(d, n)[lo..hi]
  {
    forall i | 0 <= i < hi - lo ensures RowsOf(Slice(d, n, lo, hi), hi - lo)[i] == RowsOf(d, n)[lo..hi][i] {
      SliceRow(d, n, lo, hi, i);
    }
  }

  function Append<R, V>(a: DataProto<R, V>, m: nat, b: DataProto<R, V>, n: nat): (r: DataProto<R, V>)
    requires Sized(a, m) && Sized(b, n) && KindOf(a) == KindOf(b)
    ensures Sized(r, m + n) && KindOf(r) == KindOf(a)
  {
    DataProto(if a.batch.Some? then Some(a.batch.value + b.batch.value) else None,
              map k | k in a.nonTensor :: a.nonTensor[k] + b.nonTensor[k])
  }

  lemma AppendRowLeft<R, V>(a: DataProto<R, V>, m: nat, b: DataProto<R, V>, n: nat, i: nat)
    requires Sized(a, m) && Sized(b, n) && KindOf(a) == KindOf(b) && i < m
    ensures RowAt(Append(a, m, b, n), m + n, i) == RowAt(a, m, i)
  {
    assert RowAt(Append(a, m, b, n), m + n, i).nonTensor == RowAt(a, m, i).nonTensor;
  }

  lemma AppendRowRight<R, V>(a: DataProto<R, V>, m: nat, b: DataProto<R, V>, n: nat, i: nat)
    requires Sized(a, m) && Sized(b, n) && KindOf(a) == KindOf(b) && i < n
    ensures RowAt(Append(a, m, b, n), m + n, m + i) == RowAt(b, n, i)
  {
    assert RowAt(Append(a, m, b, n), m + n, m + i).nonTensor == RowAt(b, n, i).nonTensor;
  }

  lemma AppendRows<R, V>(a: DataProto<R, V>, m: nat, b: DataProto<R, V>, n: nat)
    requires Sized(a, m) && Sized(b, n) && KindOf(a) == KindOf(b)
    ensures RowsOf(Append(a, m, b, n), m + n) == RowsOf(a, m) + RowsOf(b, n)
  {
    var whole, parts := RowsOf(Append(a, m, b, n), m + n), RowsOf(a, m) + RowsOf(b, n);
    forall i | 0 <= i < m + n ensures whole[i] == parts[i] {
      if i < m {
        AppendRowLeft(a, m, b, n, i);
      } else {
        AppendRowRight(a, m, b, n, i - m);
      }
    }
  }

  // ---------- padding ----------

  /** The first `total` rows of the batch repeated without end: row i is row i mod n. */
  function Cycled<T>(rows: seq<T>, total: nat): (r: seq<T>)
    requires rows != [] || total == 0
    ensures |r| == total
  {
    seq(total, i requires 0 <= i < total => rows[i % |rows|])
  }

  /** laps * n, step by step */
  ghost function Times(laps: nat, n: nat): nat {
    if laps == 0 then 0 else Times(laps - 1, n) + n
  }

  lemma {:induction false} TimesIs(laps: nat, n: nat)
    ensures Times(laps, n) == laps * n
  {
    if laps > 0 {
      TimesIs(laps - 1, n);
      FlatLength(laps - 1, n);
    }
  }

  function PadSize(n: nat, divisor: nat): nat
    requires divisor > 0
  {
    if n % divisor != 0 then divisor - n % divisor else 0
  }

  lemma PadSizeDivides(n: nat, divisor: nat)
    requires divisor > 0
    ensures PadSize(n, divisor) < divisor && (n + PadSize(n, divisor)) % divisor == 0
    ensures n == 0 ==> PadSize(n, divisor) == 0
  {
    var q, r := n / divisor, n % divisor;
    assert n == q * divisor + r;
    if r != 0 {
      FlatLength(q, divisor);
      DivExact(q + 1, divisor);
    }
  }

  /** After whole laps, the next rows start again at the first. */
  lemma CycledMore<T>(rows: seq<T>, laps: nat, total: nat, take: nat, next: nat)
    requires rows != [] && total == laps * |rows| && take <= |rows| && next == total + take
    ensures Cycled(rows, next) == Cycled(rows, total) + rows[..take]
  {
    forall i | 0 <= i < take ensures Cycled(rows, next)[total + i] == rows[i] {
      if i < |rows| {
        ModOf(laps, |rows|, i);
      }
    }
    assert Cycled(rows, next)[..total] == Cycled(rows, total);
  }

  lemma CycledOnce<T>(rows: seq<T>)
    ensures Cycled(rows, |rows|) == rows
  {
    forall i | 0 <= i < |rows| ensures Cycled(rows, |rows|)[i] == rows[i] {
      ModOf(0, |rows|, i);
    }
  }

  predicate IsPadded<R(==), V(==)>(data: DataProto<R, V>, n: nat, padded: DataProto<R, V>, total: nat)
    requires Sized(data, n) && (n > 0 || total == 0)
  {
    Sized(padded, total) && KindOf(padded) == KindOf(data) && RowsOf(padded, total) == Cycled(RowsOf(data, n), total)
  }

  /** One turn of the padding loop. */
  lemma PadStep<R, V>(data: DataProto<R, V>, n: nat, padded: DataProto<R, V>, laps: nat, total: nat, take: nat,
                      next: nat)
    requires Sized(data, n) && take <= n && 0 < n && total == Times(laps, n) && IsPadded(data, n, padded, total)
    requires next == total + take
    ensures IsPadded(data, n, Append(padded, total, Slice(data, n, 0, take), take), next)
  {
    TimesIs(laps, n);
    SliceRows(data, n, 0, take);
    AppendRows(padded, total, Slice(data, n, 0, take), take);
    CycledMore(RowsOf(data, n), laps, total, take, next);
  }

  /** The loop that collects the padding: the first rows over and over. */
  method PadWith<R, V>(data: DataProto<R, V>, n: nat, padSize: nat) returns (padded: DataProto<R, V>)
    requires Sized(data, n) && n > 0
    ensures IsPadded(data, n, padded, n + padSize)
  {
    padded := data;
    CycledOnce(RowsOf(data, n));
    var remaining, total := padSize, n;
    ghost var laps: nat := 1;
    while remaining > 0
      invariant 0 <= remaining && remaining + total == n + padSize && n <= total
      invariant remaining > 0 ==> total == Times(laps, n)
      invariant IsPadded(data, n, padded, total)
    {
      var take := if remaining < n then remaining else n;
      var next := total + take;
      PadStep(data, n, padded, laps, total, take, next);
      padded := Append(padded, total, Slice(data, n, 0, take), take);
      remaining, total, laps := remaining - take, next, laps + 1;
    }
  }

  /** pad_dataproto_to_divisor */
  method PadToDivisor<R, V>(data: DataProto<R, V>, n: nat, divisor: nat) returns (padded: DataProto<R, V>, padSize: nat)
    requires Sized(data, n) && divisor > 0
    ensures padSize == PadSize(n, divisor) && (n == 0 ==> padSize == 0)
    ensures IsPadded(data, n, padded, n + padSize)
  {
    PadSizeDivides(n, divisor);
    padSize := PadSize(n, divisor);
    if padSize != 0 {
      padded := PadWith(data, n, padSize);
    } else {
      CycledOnce(RowsOf(data, n));
      padded := data;
    }
  }

  // ---------- chunks ----------

  datatype ChunkError =
    | NotDivisible     // only equal chunks without padding
    | WrongPartCount   // the other columns are cut into fewer parts than asked for
    | IndexOutOfRange  // the tensor rows are

  datatype Chunks<R, V> = Chunks(parts: seq<DataProto<R, V>>) | ChunkFailed(error: ChunkError)

  /** Where part i begins: torch.chunk cuts at multiples of the rounded-up size, and
      array_split gives one row more to the first parts. */
  function CutAt(n: nat, chunks: nat, hasBatch: bool, i: nat): nat
    requires chunks > 0
  {
    if hasBatch then TorchCut(n, CeilDiv(n, chunks), i) else EvenCut(n / chunks, n % chunks, i)
  }

  function TorchCut(n: nat, c: int, i: nat): nat {
    if i * c <= 0 then 0 else Min(i * c, n)
  }

  function EvenCut(q: nat, r: nat, i: nat): nat {
    if i == 0 then 0 else EvenCut(q, r, i - 1) + q + if i - 1 < r then 1 else 0
  }

  lemma {:induction false} EvenCutIs(q: nat, r: nat, i: nat)
    ensures EvenCut(q, r, i) == i * q + Min(i, r)
  {
    if i > 0 {
      EvenCutIs(q, r, i - 1);
      FlatLength(i - 1, q);
    }
  }

  lemma {:induction false} EvenCutFits(q: nat, r: nat, i: nat, chunks: nat)
    requires i <= chunks && r < chunks
    ensures EvenCut(q, r, i) <= EvenCut(q, r, chunks) == chunks * q + r
    decreases chunks - i
  {
    EvenCutIs(q, r, chunks);
    if i < chunks {
      EvenCutFits(q, r, i + 1, chunks);
    }
  }

  /** Part i of the chunked tensor rows. */
  lemma TorchPart<T>(t: seq<T>, chunks: nat, i: nat)
    requires chunks > 0 && !TooFew(|t|, chunks) && i < chunks
    ensures |TorchChunk(t, chunks)| == chunks
    ensures CutAt(|t|, chunks, true, i) <= CutAt(|t|, chunks, true, i + 1) <= |t|
    ensures TorchChunk(t, chunks)[i] == t[CutAt(|t|, chunks, true, i)..CutAt(|t|, chunks, true, i + 1)]
  {
    TorchCount(t, chunks);
    var c := CeilDiv(|t|, chunks);
    CeilDivIs(|t|, chunks, 0);
    if t == [] {
      assert c == 0;
    } else {
      TorchPartFrom(t, c, chunks, i, i * c, (i + 1) * c);
    }
  }

  lemma TorchPartFrom<T>(t: seq<T>, c: nat, chunks: nat, i: nat, start: int, next: int)
    requires i < chunks && c == CeilDiv(|t|, chunks) && t != [] && |TorchChunk(t, chunks)| == chunks
    requires start == i * c && next == (i + 1) * c
    ensures TorchCut(|t|, c, i) <= TorchCut(|t|, c, i + 1) <= |t|
    ensures TorchChunk(t, chunks)[i] == t[TorchCut(|t|, c, i)..TorchCut(|t|, c, i + 1)]
  {
    CeilDivIs(|t|, chunks, 0);
    FlatLength(i, c);
    Monotone(0, i, c);
    BlockPart(t, c, i, start);
  }

  /** The parts tile the rows. */
  lemma CutsTile(n: nat, chunks: nat, hasBatch: bool)
    requires chunks > 0
    ensures CutAt(n, chunks, hasBatch, 0) == 0 && CutAt(n, chunks, hasBatch, chunks) == n
  {
    if hasBatch {
      CeilDivIs(n, chunks, CeilDiv(n, chunks));
    } else {
      DivMod(n, chunks, n / chunks, n % chunks);
      EvenCutFits(n / chunks, n % chunks, 0, chunks);
    }
  }

  /** Equal chunks: part i begins at row i * s. */
  lemma EqualCuts(n: nat, chunks: nat, hasBatch: bool, s: nat, i: nat)
    requires chunks > 0 && n % chunks == 0 && s == n / chunks && i <= chunks
    ensures !TooFew(n, chunks) && CutAt(n, chunks, hasBatch, i) == i * s
  {
    DivMod(n, chunks, s, 0);
    CeilDivExact(s, chunks);
    Monotone(i, chunks, s);
    Monotone(0, i, s);
    FlatLength(chunks - 1, s);
    EvenCutIs(s, 0, i);
  }

  /** Part i has the rows from cut i to cut i + 1, in every part of the batch. */
  predicate IsChunk<R(==), V(==)>(c: DataProto<R, V>, d: DataProto<R, V>, n: nat, lo: nat, hi: nat)
    requires Sized(d, n)
  {
    lo <= hi <= n && c == Slice(d, n, lo, hi)
  }

  predicate AreChunks<R(==), V(==)>(cs: seq<DataProto<R, V>>, d: DataProto<R, V>, n: nat, chunks: nat)
    requires Sized(d, n) && chunks > 0
  {
    forall i :: 0 <= i < |cs| ==>
        IsChunk(cs[i], d, n, CutAt(n, chunks, d.batch.Some?, i), CutAt(n, chunks, d.batch.Some?, i + 1))
  }

  /** Part i: the tensor rows from torch.chunk, or none, and as many rows of the other columns. */
  method MakeChunk<R, V>(d: DataProto<R, V>, n: nat, chunks: nat, i: nat, start: nat)
    returns (c: DataProto<R, V>, size: nat)
    requires Sized(d, n) && i < chunks && (d.batch.Some? ==> !TooFew(n, chunks))
    requires start == CutAt(n, chunks, d.batch.Some?, i)
    ensures start + size == CutAt(n, chunks, d.batch.Some?, i + 1) <= n && c == Slice(d, n, start, start + size)
  {
    var batch: Option<seq<R>> := None;
    if d.batch.Some? {
      TorchPart(d.batch.value, chunks, i);
      batch := Some(TorchChunk(d.batch.value, chunks)[i]);
      size := |batch.value|;
    } else {
      DivMod(n, chunks, n / chunks, n % chunks);
      EvenCutFits(n / chunks, n % chunks, i + 1, chunks);
      size := n / chunks + if i < n % chunks then 1 else 0;
    }
    c := DataProto(batch, map k | k in d.nonTensor :: d.nonTensor[k][start..start + size]);
  }

  lemma OneMoreChunk<R, V>(cs: seq<DataProto<R, V>>, c: DataProto<R, V>, d: DataProto<R, V>, n: nat, chunks: nat)
    requires Sized(d, n) && chunks > 0 && AreChunks(cs, d, n, chunks)
    requires IsChunk(c, d, n, CutAt(n, chunks, d.batch.Some?, |cs|), CutAt(n, chunks, d.batch.Some?, |cs| + 1))
    ensures AreChunks(cs + [c], d, n, chunks)
  {
  }

  /** DataProto.chunk: the tensor rows are cut by torch.chunk, the other columns at
      the running ends of the tensor chunks, or evenly when there are no tensor
      rows. Without padding the sizes must divide. */
  method Chunk<R, V>(d: DataProto<R, V>, n: nat, chunks: nat, padding: bool) returns (r: Chunks<R, V>)
    requires Sized(d, n) && chunks > 0
    ensures r.Chunks? <==> (padding || n % chunks == 0) && !(d.batch.Some? && TooFew(n, chunks))
    ensures r == ChunkFailed(NotDivisible) <==> !padding && n % chunks != 0
    ensures r == ChunkFailed(WrongPartCount)
            <==> padding && d.batch.Some? && TooFew(n, chunks) && d.nonTensor.Keys != {}
    ensures r.Chunks? ==> |r.parts| == chunks && AreChunks(r.parts, d, n, chunks)
  {
    if n % chunks == 0 {
      EqualCuts(n, chunks, d.batch.Some?, n / chunks, 0);
    } else if !padding {
      return ChunkFailed(NotDivisible);
    }
    if d.batch.Some? {
      TorchCount(d.batch.value, chunks);
      if |TorchChunk(d.batch.value, chunks)| != chunks {
        return ChunkFailed(if d.nonTensor.Keys != {} then WrongPartCount else IndexOutOfRange);
      }
    }
    var output: seq<DataProto<R, V>> := [];
    var start: nat := 0;
    CutsTile(n, chunks, d.batch.Some?);
    for i := 0 to chunks
      invariant |output| == i && start == CutAt(n, chunks, d.batch.Some?, i) && AreChunks(output, d, n, chunks)
    {
      var c, size := MakeChunk(d, n, chunks, i, start);
      OneMoreChunk(output, c, d, n, chunks);
      output := output + [c];
      start := start + size;
    }
    return Chunks(output);
  }

  // ---------- concatenation of workers' results ----------

  predicate AllSized<R, V>(ds: seq<DataProto<R, V>>, sizes: seq<nat>, kind: Kind) {
    |sizes| == |ds| && forall i :: 0 <= i < |ds| ==> Sized(ds[i], sizes[i]) && KindOf(ds[i]) == kind
  }

  function Total(sizes: seq<nat>): nat {
    if sizes == [] then 0 else Total(sizes[..|sizes| - 1]) + sizes[|sizes| - 1]
  }

  /** The rows of all batches, in order. */
  function RowsOfAll<R, V>(ds: seq<DataProto<R, V>>, sizes: seq<nat>, kind: Kind): seq<Row<R, V>>
    requires AllSized(ds, sizes, kind)
  {
    if ds == [] then [] else
      var n := |ds| - 1;
      RowsOfAll(ds[..n], sizes[..n], kind) + RowsOf(ds[n], sizes[n])
  }

  lemma RowsOfAllAppend<R, V>(ds: seq<DataProto<R, V>>, sizes: seq<nat>, d: DataProto<R, V>, s: nat, kind: Kind)
    requires AllSized(ds, sizes, kind) && Sized(d, s) && KindOf(d) == kind
    ensures AllSized(ds + [d], sizes + [s], kind) && Total(sizes + [s]) == Total(sizes) + s
    ensures RowsOfAll(ds + [d], sizes + [s], kind) == RowsOfAll(ds, sizes, kind) + RowsOf(d, s)
  {
    assert (ds + [d])[..|ds|] == ds && (sizes + [s])[..|ds|] == sizes;
  }

  /** DataProto.concat of batches of one kind, of any sizes. */
  method Concat<R, V>(ds: seq<DataProto<R, V>>, sizes: seq<nat>, ghost kind: Kind)
    returns (r: DataProto<R, V>, total: nat)
    requires ds != [] && AllSized(ds, sizes, kind)
    ensures total == Total(sizes) && Sized(r, total) && KindOf(r) == kind
    ensures RowsOf(r, total) == RowsOfAll(ds, sizes, kind)
  {
    r, total := ds[0], sizes[0];
    FirstPrefix(ds, sizes, kind);
    for i: nat := 1 to |ds|
      invariant IsConcat(r, total, ds[..i], sizes[..i], kind)
    {
      NextPrefix(r, total, ds, sizes, kind, i);
      r := Append(r, total, ds[i], sizes[i]);
      total := total + sizes[i];
    }
    assert ds[..|ds|] == ds && sizes[..|ds|] == sizes;
  }

  predicate IsConcat<R(==), V(==)>(r: DataProto<R, V>, total: nat, ds: seq<DataProto<R, V>>, sizes: seq<nat>,
                                   kind: Kind) {
    && AllSized(ds, sizes, kind) && total == Total(sizes) && Sized(r, total) && KindOf(r) == kind
    && RowsOf(r, total) == RowsOfAll(ds, sizes, kind)
  }

  lemma FirstPrefix<R, V>(ds: seq<DataProto<R, V>>, sizes: seq<nat>, kind: Kind)
    requires ds != [] && AllSized(ds, sizes, kind)
    ensures IsConcat(ds[0], sizes[0], ds[..1], sizes[..1], kind)
  {
    RowsOfAllAppend([], [], ds[0], sizes[0], kind);
    assert ds[..1] == [] + [ds[0]] && sizes[..1] == [] + [sizes[0]];
  }

  lemma NextPrefix<R, V>(r: DataProto<R, V>, total: nat, ds: seq<DataProto<R, V>>, sizes: seq<nat>, kind: Kind, i: nat)
    requires AllSized(ds, sizes, kind) && i < |ds| && IsConcat(r, total, ds[..i], sizes[..i], kind)
    ensures IsConcat(Append(r, total, ds[i], sizes[i]), total + sizes[i], ds[..i + 1], sizes[..i + 1], kind)
  {
    AppendRows(r, total, ds[i], sizes[i]);
    PrefixNext(ds, i);
    PrefixNext(sizes, i);
    RowsOfAllAppend(ds[..i], sizes[..i], ds[i], sizes[i], kind);
  }

  lemma PrefixNext<T>(s: seq<T>, i: nat)
    requires i < |s|
    ensures s[..i + 1] == s[..i] + [s[i]]
  {
  }

  // ---------- dispatch ----------

  function MapRows<A, B>(rows: seq<A>, g: A -> B): (r: seq<B>)
    ensures |r| == |rows| && forall i :: 0 <= i < |rows| ==> r[i] == g(rows[i])
  {
    seq(|rows|, i requires 0 <= i < |rows| => g(rows[i]))
  }

  /** What a worker makes of each row does not depend on the other rows of its chunk, and
      the columns of its result only depend on those of its input. */
  ghost predicate RowWise<R(!new), V(!new), S, W>(
      f: DataProto<R, V> -> DataProto<S, W>, g: Row<R, V> -> Row<S, W>, inKind: Kind, kind: Kind)
  {
    forall d: DataProto<R, V>, n: nat {:trigger Sized(f(d), n)} :: Sized(d, n) && KindOf(d) == inKind ==>
      Sized(f(d), n) && KindOf(f(d)) == kind && RowsOf(f(d), n) == MapRows(RowsOf(d, n), g)
  }

  lemma WorkerRows<R(!new), V(!new), S, W>(
      f: DataProto<R, V> -> DataProto<S, W>, g: Row<R, V> -> Row<S, W>, kind: Kind, d: DataProto<R, V>, n: nat)
    requires RowWise(f, g, KindOf(d), kind) && Sized(d, n)
    ensures Sized(f(d), n) && KindOf(f(d)) == kind && RowsOf(f(d), n) == MapRows(RowsOf(d, n), g)
  {
    assert Sized(f(d), n) || !Sized(f(d), n);
  }

  /** A worker that gives back its chunk, whatever the columns. */
  lemma IdentityIsRowWise<R(!new), V(!new)>(kind: Kind)
    ensures RowWise((d: DataProto<R, V>) => d, (row: Row<R, V>) => row, kind, kind)
  {
    var g := (row: Row<R, V>) => row;
    forall d: DataProto<R, V>, n: nat | Sized(d, n) ensures RowsOf(d, n) == MapRows(RowsOf(d, n), g) {
    }
  }

  /** The sizes of the first m parts. */
  function Sizes(n: nat, chunks: nat, hasBatch: bool, m: nat): (r: seq<nat>)
    requires chunks > 0
    ensures |r| == m
  {
    seq(m, i requires 0 <= i < m => SizeBetween(CutAt(n, chunks, hasBatch, i), CutAt(n, chunks, hasBatch, i + 1)))
  }

  function SizeBetween(lo: nat, hi: nat): nat {
    if lo <= hi then hi - lo else 0
  }

  /** The batches have the results of the first `done` rows. */
  predicate AreResults<S(==), W(==), R>(outs: seq<DataProto<S, W>>, sizes: seq<nat>, rows: seq<R>, done: nat,
                                        g: R -> Row<S, W>, kind: Kind) {
    && AllSized(outs, sizes, kind) && Total(sizes) == done <= |rows|
    && RowsOfAll(outs, sizes, kind) == MapRows(rows[..done], g)
  }

  lemma ResultStep<R(!new), V(!new), S, W>(
      d: DataProto<R, V>, n: nat, lo: nat, hi: nat, c: DataProto<R, V>, before: seq<DataProto<S, W>>, sizes: seq<nat>,
      f: DataProto<R, V> -> DataProto<S, W>, g: Row<R, V> -> Row<S, W>, kind: Kind)
    requires Sized(d, n) && RowWise(f, g, KindOf(d), kind) && IsChunk(c, d, n, lo, hi)
    requires AreResults(before, sizes, RowsOf(d, n), lo, g, kind)
    ensures AreResults(before + [f(c)], sizes + [hi - lo], RowsOf(d, n), hi, g, kind)
  {
    var rows := RowsOf(d, n);
    WorkerRows(f, g, kind, c, hi - lo);
    SliceRows(d, n, lo, hi);
    RowsOfAllAppend(before, sizes, f(c), hi - lo, kind);
    MapSplit(rows, lo, hi, g);
  }

  /** The workers' results, chunk by chunk, are the results of the rows in order. */
  lemma {:induction false} ResultsInOrder<R(!new), V(!new), S, W>(
      d: DataProto<R, V>, n: nat, chunks: nat, parts: seq<DataProto<R, V>>, outs: seq<DataProto<S, W>>,
      f: DataProto<R, V> -> DataProto<S, W>, g: Row<R, V> -> Row<S, W>, kind: Kind)
    requires Sized(d, n) && RowWise(f, g, KindOf(d), kind) && |outs| == |parts| && chunks > 0
    requires AreChunks(parts, d, n, chunks) && forall i :: 0 <= i < |parts| ==> outs[i] == f(parts[i])
    ensures AreResults(outs, Sizes(n, chunks, d.batch.Some?, |parts|), RowsOf(d, n),
                       CutAt(n, chunks, d.batch.Some?, |parts|), g, kind)
  {
    if parts == [] {
      CutsTile(n, chunks, d.batch.Some?);
    } else {
      var m := |parts| - 1;
      ResultsInOrder(d, n, chunks, parts[..m], outs[..m], f, g, kind);
      LastResult(d, n, chunks, parts, outs, f, g, kind, m, CutAt(n, chunks, d.batch.Some?, m),
                 CutAt(n, chunks, d.batch.Some?, m + 1));
    }
  }

  lemma LastResult<R(!new), V(!new), S, W>(
      d: DataProto<R, V>, n: nat, chunks: nat, parts: seq<DataProto<R, V>>, outs: seq<DataProto<S, W>>,
      f: DataProto<R, V> -> DataProto<S, W>, g: Row<R, V> -> Row<S, W>, kind: Kind, m: nat, lo: nat, hi: nat)
    requires Sized(d, n) && RowWise(f, g, KindOf(d), kind) && chunks > 0 && |outs| == |parts| == m + 1
    requires outs[m] == f(parts[m])
    requires lo == CutAt(n, chunks, d.batch.Some?, m) && hi == CutAt(n, chunks, d.batch.Some?, m + 1)
    requires IsChunk(parts[m], d, n, lo, hi)
    requires AreResults(outs[..m], Sizes(n, chunks, d.batch.Some?, m), RowsOf(d, n), lo, g, kind)
    ensures AreResults(outs, Sizes(n, chunks, d.batch.Some?, m + 1), RowsOf(d, n), hi, g, kind)
  {
    var sizes := Sizes(n, chunks, d.batch.Some?, m);
    ResultStep(d, n, lo, hi, parts[m], outs[..m], sizes, f, g, kind);
    assert outs == outs[..m] + [f(parts[m])] && Sizes(n, chunks, d.batch.Some?, m + 1) == sizes + [hi - lo];
  }

  lemma MapSplit<A, B>(rows: seq<A>, lo: nat, hi: nat, g: A -> B)
    requires lo <= hi <= |rows|
    ensures MapRows(rows[..hi], g) == MapRows(rows[..lo], g) + MapRows(rows[lo..hi], g)
  {
  }

  /** Chunking, computing on the workers and concatenating; None when chunking fails. */
  method OnWorkers<R(!new), V(!new), S, W>(
      data: DataProto<R, V>, n: nat, workers: nat, padding: bool,
      f: DataProto<R, V> -> DataProto<S, W>, ghost g: Row<R, V> -> Row<S, W>, ghost kind: Kind)
    returns (r: Option<DataProto<S, W>>)
    requires Sized(data, n) && workers > 0 && RowWise(f, g, KindOf(data), kind)
    ensures r.Some? <==> (padding || n % workers == 0) && !(data.batch.Some? && TooFew(n, workers))
    ensures r.Some? ==> Sized(r.value, n) && RowsOf(r.value, n) == MapRows(RowsOf(data, n), g)
  {
    var chunks := Chunk(data, n, workers, padding);
    if chunks.ChunkFailed? {
      return None;
    }
    var outs := Compute(chunks.parts, f);
    ResultsInOrder(data, n, workers, chunks.parts, outs, f, g, kind);
    CutsTile(n, workers, data.batch.Some?);
    assert RowsOf(data, n)[..n] == RowsOf(data, n);
    var all, size := Concat(outs, Sizes(n, workers, data.batch.Some?, workers), kind);
    return Some(all);
  }

  method Compute<A, B>(chunks: seq<A>, f: A -> B) returns (outs: seq<B>)
    ensures |outs| == |chunks| && forall i :: 0 <= i < |chunks| ==> outs[i] == f(chunks[i])
  {
    outs := [];
    for i := 0 to |chunks|
      invariant |outs| == i && forall j :: 0 <= j < i ==> outs[j] == f(chunks[j])
    {
      outs := outs + [f(chunks[i])];
    }
  }

  /** Padding to the number of workers, computing on the workers and unpadding gives
      exactly the result of every row, in order. */
  method DispatchCompute<R(!new), V(!new), S, W>(
      data: DataProto<R, V>, n: nat, workers: nat,
      f: DataProto<R, V> -> DataProto<S, W>, ghost g: Row<R, V> -> Row<S, W>, ghost kind: Kind)
    returns (r: DataProto<S, W>)
    requires Sized(data, n) && workers > 0 && RowWise(f, g, KindOf(data), kind)
    ensures Sized(r, n) && RowsOf(r, n) == MapRows(RowsOf(data, n), g)
  {
    var padded, padSize := PadToDivisor(data, n, workers);
    PadSizeDivides(n, workers);
    var total := n + padSize;
    EqualCuts(total, workers, true, total / workers, 0);
    var all := OnWorkers(padded, total, workers, false, f, g, kind);
    UnpadRows(RowsOf(data, n), total, g);
    r := Unpad(all.value, total, padSize);
  }

  /** unpad_dataproto */
  method Unpad<R, V>(data: DataProto<R, V>, n: nat, padSize: nat) returns (r: DataProto<R, V>)
    requires Sized(data, n) && padSize <= n
    ensures Sized(r, n - padSize) && RowsOf(r, n - padSize) == RowsOf(data, n)[..n - padSize]
  {
    r := data;
    if padSize != 0 {
      SliceRows(data, n, 0, n - padSize);
      r := Slice(data, n, 0, n - padSize);
    }
  }

  lemma UnpadRows<A, B>(rows: seq<A>, total: nat, g: A -> B)
    requires |rows| <= total && (rows != [] || total == 0)
    ensures MapRows(Cycled(rows, total), g)[..|rows|] == MapRows(rows, g)
  {
    forall i | 0 <= i < |rows| ensures Cycled(rows, total)[i] == rows[i] {
      ModOf(0, |rows|, i);
    }
  }
}
