/** The layout of the fused query/key/value tensor: packing
    (scripts/converter_hf_to_mcore.py), splitting
    (verl/model_merger/megatron_model_merger.py, _split_tensors) and merging tensor
    parallel shards (scripts/legacy_model_merger.py, _merge_across_tp). A tensor is
    the sequence of its rows. */
module QkvLayout {
  import opened Arithmetic
  import opened Chunking
  import opened Sequences
  import opened Wrappers

  datatype Qkv<T> = Qkv(q: seq<T>, k: seq<T>, v: seq<T>)

  // ---------- packing ----------

  /** Group i of the packed tensor: the query, key and value rows of group i. */
  function Zip<T>(q: seq<seq<T>>, k: seq<seq<T>>, v: seq<seq<T>>): (r: seq<seq<T>>)
    requires |q| == |k| == |v|
    ensures |r| == |q|
  {
    seq(|q|, i requires 0 <= i < |q| => q[i] + k[i] + v[i])
  }

  /** view per group, cat along the group dimension, view back. */
  function Pack<T>(x: Qkv<T>, groups: nat, a: nat, b: nat): seq<T>
    requires a > 0 && b > 0 && |x.q| == groups * a && |x.k| == |x.v| == groups * b
  {
    BlocksExact(x.q, a, groups);
    BlocksExact(x.k, b, groups);
    BlocksExact(x.v, b, groups);
    Flatten(Zip(Blocks(x.q, a), Blocks(x.k, b), Blocks(x.v, b)))
  }

  // ---------- splitting ----------

  /** Columns lo..hi of every block, one block after the other. */
  function Columns<T>(blocks: seq<seq<T>>, lo: nat, hi: nat): seq<T> {
    if blocks == [] then [] else
      var last := blocks[|blocks| - 1];
      Columns(blocks[..|blocks| - 1], lo, hi) + if lo <= hi <= |last| then last[lo..hi] else []
  }

  /** What splitting every block into a, b and b rows gives; None when a block has another size. */
  function SplitBlocks<T>(blocks: seq<seq<T>>, a: nat, b: nat): Option<Qkv<T>> {
    if AllOfSize(blocks, a + b + b)
    then Some(Qkv(Columns(blocks, 0, a), Columns(blocks, a, a + b), Columns(blocks, a + b, a + b + b)))
    else None
  }

  lemma ColumnsStep<T>(chunks: seq<seq<T>>, i: nat, a: nat, b: nat)
    requires i < |chunks| && |chunks[i]| == a + b + b
    ensures Columns(chunks[..i + 1], 0, a) == Columns(chunks[..i], 0, a) + chunks[i][..a]
    ensures Columns(chunks[..i + 1], a, a + b) == Columns(chunks[..i], a, a + b) + chunks[i][a..a + b]
    ensures Columns(chunks[..i + 1], a + b, a + b + b) == Columns(chunks[..i], a + b, a + b + b) + chunks[i][a + b..]
  {
    assert chunks[..i + 1][..i] == chunks[..i];
  }

  /** chunk.split into a, b and b rows and appended to the three lists; false when
      a chunk has another size. */
  method SplitChunks<T>(chunks: seq<seq<T>>, a: nat, b: nat) returns (ok: bool, q: seq<T>, k: seq<T>, v: seq<T>)
    ensures ok <==> AllOfSize(chunks, a + b + b)
    ensures ok ==> SplitBlocks(chunks, a, b) == Some(Qkv(q, k, v))
  {
    q, k, v := [], [], [];
    for i := 0 to |chunks|
      invariant forall j :: 0 <= j < i ==> |chunks[j]| == a + b + b
      invariant q == Columns(chunks[..i], 0, a)
      invariant k == Columns(chunks[..i], a, a + b)
      invariant v == Columns(chunks[..i], a + b, a + b + b)
    {
      var chunk := chunks[i];
      if |chunk| != a + b + b {
        return false, [], [], [];
      }
      ColumnsStep(chunks, i, a, b);
      q := q + chunk[..a];
      k := k + chunk[a..a + b];
      v := v + chunk[a + b..];
    }
    assert chunks[..|chunks|] == chunks;
    ok := true;
  }

  /** The query rows and the key (or value) rows of one group. */
  datatype Sizes = Sizes(a: nat, b: nat)

  function SizesFor(rows: nat, perKv: nat, groups: nat): Sizes
    requires groups > 0
  {
    var kvSize := rows / (perKv + 2);
    Sizes(kvSize * perKv / groups, kvSize / groups)
  }

  function SplitSpec<T>(tensor: seq<T>, heads: nat, groups: nat): Option<Qkv<T>> {
    if groups == 0 || heads % groups != 0 || |tensor| % (heads / groups + 2) != 0 then None else
      var sizes := SizesFor(|tensor|, heads / groups, groups);
      SplitBlocks(TorchChunk(tensor, groups), sizes.a, sizes.b)
  }

  /** _split_tensors for a fused tensor; None when an assertion or a split fails. */
  method SplitTensors<T>(tensor: seq<T>, heads: nat, groups: nat) returns (r: Option<Qkv<T>>)
    ensures r == SplitSpec(tensor, heads, groups)
  {
    if groups == 0 || heads % groups != 0 || |tensor| % (heads / groups + 2) != 0 {
      return None;
    }
    var sizes := SizesFor(|tensor|, heads / groups, groups);
    var ok, q, k, v := SplitChunks(TorchChunk(tensor, groups), sizes.a, sizes.b);
    r := if ok then Some(Qkv(q, k, v)) else None;
  }

  /** All chunks of all shards. */
  function ChunksOf<T>(shards: seq<seq<T>>, n: nat): seq<seq<T>>
    requires n > 0
  {
    if shards == [] then [] else ChunksOf(shards[..|shards| - 1], n) + TorchChunk(shards[|shards| - 1], n)
  }

  /** n groups per shard; the sizes come from the first shard. */
  function MergeSpec<T>(tpData: seq<seq<T>>, perKv: nat, n: nat): Option<Qkv<T>>
    requires tpData != [] && n > 0
  {
    if |tpData[0]| % (perKv + 2) != 0 then None else
      var sizes := SizesFor(|tpData[0]|, perKv, n);
      SplitBlocks(ChunksOf(tpData, n), sizes.a, sizes.b)
  }

  lemma LastColumns<T>(blocks: seq<seq<T>>, lo: nat, hi: nat)
    requires blocks != []
    ensures var n := |blocks| - 1;
            Columns(blocks, lo, hi) == Columns(blocks[..n], lo, hi) + Columns([blocks[n]], lo, hi)
  {
    assert [blocks[|blocks| - 1]][..0] == [];
  }

  lemma {:induction false} ColumnsConcat<T>(x: seq<seq<T>>, y: seq<seq<T>>, lo: nat, hi: nat)
    ensures Columns(x + y, lo, hi) == Columns(x, lo, hi) + Columns(y, lo, hi)
  {
    if y == [] {
      assert x + y == x;
    } else {
      var n := |y| - 1;
      assert (x + y)[..|x| + n] == x + y[..n] && (x + y)[|x| + n] == y[n];
      ColumnsConcat(x, y[..n], lo, hi);
      LastColumns(x + y, lo, hi);
      LastColumns(y, lo, hi);
    }
  }

  lemma SplitConcat<T>(x: seq<seq<T>>, y: seq<seq<T>>, a: nat, b: nat)
    ensures AllOfSize(x + y, a + b + b) <==> AllOfSize(x, a + b + b) && AllOfSize(y, a + b + b)
    ensures SplitBlocks(x, a, b).Some? && SplitBlocks(y, a, b).Some? ==>
              SplitBlocks(x + y, a, b) == Some(Joined(SplitBlocks(x, a, b).value, SplitBlocks(y, a, b).value))
  {
    assert forall i :: 0 <= i < |x| ==> (x + y)[i] == x[i];
    assert forall i :: 0 <= i < |y| ==> (x + y)[|x| + i] == y[i];
    ColumnsConcat(x, y, 0, a);
    ColumnsConcat(x, y, a, a + b);
    ColumnsConcat(x, y, a + b, a + b + b);
  }

  function Joined<T>(x: Qkv<T>, y: Qkv<T>): Qkv<T> {
    Qkv(x.q + y.q, x.k + y.k, x.v + y.v)
  }

  lemma {:induction false} ChunksPrefix<T>(shards: seq<seq<T>>, n: nat, i: nat, size: nat)
    requires n > 0 && i <= |shards| && AllOfSize(ChunksOf(shards, n), size)
    ensures AllOfSize(ChunksOf(shards[..i], n), size)
  {
    if i < |shards| {
      var m := |shards| - 1;
      assert shards[..m][..i] == shards[..i];
      assert ChunksOf(shards[..m], n) == ChunksOf(shards, n)[..|ChunksOf(shards[..m], n)|];
      ChunksPrefix(shards[..m], n, i, size);
    } else {
      assert shards[..i] == shards;
    }
  }

  lemma ShardStep<T>(shards: seq<seq<T>>, n: nat, i: nat, a: nat, b: nat)
    requires n > 0 && i < |shards| && AllOfSize(ChunksOf(shards[..i], n), a + b + b)
    ensures !AllOfSize(TorchChunk(shards[i], n), a + b + b) ==> !AllOfSize(ChunksOf(shards, n), a + b + b)
    ensures AllOfSize(TorchChunk(shards[i], n), a + b + b) ==>
              SplitBlocks(ChunksOf(shards[..i + 1], n), a, b)
              == Some(Joined(SplitBlocks(ChunksOf(shards[..i], n), a, b).value,
                             SplitBlocks(TorchChunk(shards[i], n), a, b).value))
  {
    assert shards[..i + 1][..i] == shards[..i];
    SplitConcat(ChunksOf(shards[..i], n), TorchChunk(shards[i], n), a, b);
    if AllOfSize(ChunksOf(shards, n), a + b + b) {
      ChunksPrefix(shards, n, i + 1, a + b + b);
    }
  }

  /** The two nested loops of _merge_across_tp. */
  method SplitShards<T>(tpData: seq<seq<T>>, n: nat, a: nat, b: nat) returns (ok: bool, x: Qkv<T>)
    requires n > 0
    ensures ok <==> AllOfSize(ChunksOf(tpData, n), a + b + b)
    ensures ok ==> SplitBlocks(ChunksOf(tpData, n), a, b) == Some(x)
  {
    x := Qkv([], [], []);
    for i := 0 to |tpData|
      invariant SplitBlocks(ChunksOf(tpData[..i], n), a, b) == Some(x)
    {
      ShardStep(tpData, n, i, a, b);
      var fits, q, k, v := SplitChunks(TorchChunk(tpData[i], n), a, b);
      if !fits {
        return false, x;
      }
      x := Joined(x, Qkv(q, k, v));
    }
    assert tpData[..|tpData|] == tpData;
    ok := true;
  }

  /** _merge_across_tp for a fused tensor: None when an assertion, a chunk or a split fails. */
  method MergeAcrossTp<T>(tpData: seq<seq<T>>, heads: nat, groups: nat) returns (r: Option<Qkv<T>>)
    requires tpData != []
    ensures r == if groups < |tpData| || heads % groups != 0 then None
                 else MergeSpec(tpData, heads / groups, groups / |tpData|)
  {
    if groups < |tpData| || heads % groups != 0 || |tpData[0]| % (heads / groups + 2) != 0 {
      return None;
    }
    var sizes := SizesFor(|tpData[0]|, heads / groups, groups / |tpData|);
    var ok, x := SplitShards(tpData, groups / |tpData|, sizes.a, sizes.b);
    r := if ok then Some(x) else None;
  }

  // ---------- round trips ----------

  lemma {:induction false} ColumnsOfZip<T>(q: seq<seq<T>>, k: seq<seq<T>>, v: seq<seq<T>>, a: nat, b: nat)
    requires |q| == |k| == |v| && AllOfSize(q, a) && AllOfSize(k, b) && AllOfSize(v, b)
    ensures AllOfSize(Zip(q, k, v), a + b + b)
    ensures Columns(Zip(q, k, v), 0, a) == Flatten(q)
    ensures Columns(Zip(q, k, v), a, a + b) == Flatten(k)
    ensures Columns(Zip(q, k, v), a + b, a + b + b) == Flatten(v)
  {
    if q != [] {
      var n := |q| - 1;
      ColumnsOfZip(q[..n], k[..n], v[..n], a, b);
      assert Zip(q, k, v)[..n] == Zip(q[..n], k[..n], v[..n]);
      LastBlock(q);
      LastBlock(k);
      LastBlock(v);
    }
  }

  lemma LastBlock<T>(blocks: seq<seq<T>>)
    requires blocks != []
    ensures Flatten(blocks) == Flatten(blocks[..|blocks| - 1]) + blocks[|blocks| - 1]
  {
    assert blocks == blocks[..|blocks| - 1] + [blocks[|blocks| - 1]];
    FlattenAppend(blocks[..|blocks| - 1], blocks[|blocks| - 1]);
  }

  /** The packed tensor, cut into one block per group and split by columns, gives
      back the three tensors. */
  lemma PackColumns<T>(x: Qkv<T>, groups: nat, a: nat, b: nat)
    requires a > 0 && b > 0 && |x.q| == groups * a && |x.k| == |x.v| == groups * b
    ensures |Pack(x, groups, a, b)| == groups * (a + b + b)
    ensures SplitBlocks(Blocks(Pack(x, groups, a, b), a + b + b), a, b) == Some(x)
  {
    BlocksExact(x.q, a, groups);
    BlocksExact(x.k, b, groups);
    BlocksExact(x.v, b, groups);
    var zip := Zip(Blocks(x.q, a), Blocks(x.k, b), Blocks(x.v, b));
    ColumnsOfZip(Blocks(x.q, a), Blocks(x.k, b), Blocks(x.v, b), a, b);
    BlocksTile(x.q, a);
    BlocksTile(x.k, b);
    BlocksTile(x.v, b);
    BlocksOfFlat(zip, a + b + b);
  }

  /** The sizes computed from the number of rows are the sizes packed with. */
  lemma SizesExact(rows: nat, perKv: nat, groups: nat, b: nat)
    requires groups > 0 && rows == groups * (perKv * b + b + b)
    ensures rows % (perKv + 2) == 0 && SizesFor(rows, perKv, groups) == Sizes(perKv * b, b)
  {
    assert perKv * b + b + b == b * (perKv + 2);
    assert rows == (groups * b) * (perKv + 2);
    DivExact(groups * b, perKv + 2);
    assert (groups * b) * perKv == (perKv * b) * groups;
    DivExact(perKv * b, groups);
    assert groups * b == b * groups;
    DivExact(b, groups);
  }

  /** Packing and then splitting gives back q, k and v. */
  lemma PackSplit<T>(x: Qkv<T>, heads: nat, groups: nat, b: nat)
    requires groups > 0 && heads > 0 && heads % groups == 0 && b > 0
    requires |x.q| == groups * (heads / groups * b) && |x.k| == |x.v| == groups * b
    ensures heads / groups * b > 0
    ensures SplitSpec(Pack(x, groups, heads / groups * b, b), heads, groups) == Some(x)
  {
    var n := heads / groups;
    assert n > 0;
    Positive(n, b);
    PackSplitSized(x, heads, groups, n, n * b, b);
  }

  lemma PackSplitSized<T>(x: Qkv<T>, heads: nat, groups: nat, n: nat, a: nat, b: nat)
    requires groups > 0 && heads % groups == 0 && n == heads / groups && b > 0 && a > 0 && a == n * b
    requires |x.q| == groups * a && |x.k| == |x.v| == groups * b
    ensures SplitSpec(Pack(x, groups, a, b), heads, groups) == Some(x)
  {
    var t := Pack(x, groups, a, b);
    PackColumns(x, groups, a, b);
    SizesExact(|t|, n, groups, b);
    ChunkExact(t, groups, a + b + b);
  }

  /** Cutting the packed tensor into equal row shards and merging them gives the same
      q, k and v, for every number of shards that divides the number of groups. */
  lemma PackShardMerge<T>(x: Qkv<T>, heads: nat, groups: nat, b: nat, tp: nat)
    requires groups > 0 && heads > 0 && heads % groups == 0 && b > 0 && tp > 0 && groups % tp == 0
    requires |x.q| == groups * (heads / groups * b) && |x.k| == |x.v| == groups * b
    ensures heads / groups * b > 0
    ensures var shards := TorchChunk(Pack(x, groups, heads / groups * b, b), tp);
            && |shards| == tp <= groups
            && MergeSpec(shards, heads / groups, groups / tp) == Some(x)
  {
    var n := heads / groups;
    assert n > 0;
    Positive(n, b);
    ShardMergeSized(x, groups, n, n * b, b, tp, groups / tp);
  }

  lemma ShardMergeSized<T>(x: Qkv<T>, groups: nat, n: nat, a: nat, b: nat, tp: nat, m: nat)
    requires groups > 0 && b > 0 && a > 0 && a == n * b && tp > 0 && groups == tp * m
    requires |x.q| == groups * a && |x.k| == |x.v| == groups * b
    ensures m > 0 && tp <= groups
    ensures var shards := TorchChunk(Pack(x, groups, a, b), tp);
            |shards| == tp && MergeSpec(shards, n, m) == Some(x)
  {
    var t, size := Pack(x, groups, a, b), a + b + b;
    PackColumns(x, groups, a, b);
    Positive(m, size);
    assert m > 0;
    Monotone(1, m, tp);
    TimesTimes(tp, m, size);
    ChunkExact(t, tp, m * size);
    BlocksExact(t, m * size, tp);
    SizesExact(m * size, n, m, b);
    NestedBlocks(t, size, m, m * size, tp);
  }

  /** Cutting each of tp shards into m chunks gives the blocks of the whole. */
  lemma {:induction false} NestedBlocks<T>(t: seq<T>, size: nat, m: nat, shard: nat, tp: nat)
    requires size > 0 && m > 0 && shard > 0 && shard == m * size && |t| == tp * shard
    ensures ChunksOf(Blocks(t, shard), m) == Blocks(t, size)
  {
    if tp > 0 {
      FlatLength(tp - 1, shard);
      Monotone(0, tp - 1, shard);
      var cut := |t| - shard;
      NestedBlocks(t[..cut], size, m, shard, tp - 1);
      NestedStep(t[..cut], t[cut..], size, m, shard, tp - 1);
      assert t == t[..cut] + t[cut..];
    }
  }

  lemma NestedStep<T>(init: seq<T>, last: seq<T>, size: nat, m: nat, shard: nat, k: nat)
    requires size > 0 && m > 0 && shard > 0 && shard == m * size && |init| == k * shard && |last| == shard
    requires ChunksOf(Blocks(init, shard), m) == Blocks(init, size)
    ensures ChunksOf(Blocks(init + last, shard), m) == Blocks(init + last, size)
  {
    BlocksConcat(init, last, shard, k);
    ChunkExact(last, m, size);
    TimesTimes(k, m, size);
    BlocksConcat(init, last, size, k * m);
    assert Blocks(last, shard) == [last];
    assert (Blocks(init, shard) + [last])[..|Blocks(init, shard)|] == Blocks(init, shard);
  }

  lemma TimesTimes(k: nat, m: nat, size: nat)
    ensures k * (m * size) == (k * m) * size && k * m >= 0
  {
  }

  // ---------- when splitting succeeds ----------

  /** Splitting a fused tensor succeeds if and only if the query heads divide among
      the groups and the rows divide into equal heads of every group. */
  lemma SplitSucceedsIff<T>(tensor: seq<T>, heads: nat, groups: nat)
    requires groups > 0
    ensures SplitSpec(tensor, heads, groups).Some?
            <==> && heads % groups == 0 && |tensor| % (heads / groups + 2) == 0
                 && |tensor| / (heads / groups + 2) % groups == 0
  {
    if heads % groups == 0 && |tensor| % (heads / groups + 2) == 0 {
      var n, kv := heads / groups, |tensor| / (heads / groups + 2);
      RowsOf(|tensor|, n + 2, kv);
      if kv % groups == 0 {
        SplitOfExact(tensor, n, groups, kv, kv / groups);
      } else {
        SplitOfInexact(tensor, n, groups, kv);
      }
    }
  }

  lemma RowsOf(rows: nat, d: nat, q: nat)
    requires d > 0 && rows % d == 0 && q == rows / d
    ensures rows == q * d
  {
  }

  lemma SplitOfExact<T>(tensor: seq<T>, n: nat, groups: nat, kv: nat, b: nat)
    requires groups > 0 && |tensor| == kv * (n + 2) && kv == groups * b
    ensures var sizes := SizesFor(|tensor|, n, groups); SplitBlocks(TorchChunk(tensor, groups), sizes.a, sizes.b).Some?
  {
    var size := n * b + b + b;
    assert kv * (n + 2) == groups * size;
    SizesExact(|tensor|, n, groups, b);
    if size > 0 {
      ChunkExact(tensor, groups, size);
      BlocksExact(tensor, size, groups);
    }
  }

  lemma SplitOfInexact<T>(tensor: seq<T>, n: nat, groups: nat, kv: nat)
    requires groups > 0 && |tensor| == kv * (n + 2) && kv % groups != 0
    ensures var sizes := SizesFor(|tensor|, n, groups); SplitBlocks(TorchChunk(tensor, groups), sizes.a, sizes.b).None?
  {
    DivExact(kv, n + 2);
    Positive(kv, n + 2);
    var sizes, c := SizesFor(|tensor|, n, groups), CeilDiv(|tensor|, groups);
    CeilDivBounds(|tensor|, groups, c);
    FloorsFallShort(kv, n, groups, sizes.a, sizes.b, c);
    CeilDivIs(|tensor|, groups, |tensor|);
    Monotone(1, groups, |tensor|);
    assert |TorchChunk(tensor, groups)[0]| == c;
  }

  lemma FloorsFallShort(kv: nat, n: nat, groups: nat, a: nat, b: nat, c: int)
    requires groups > 0 && kv % groups != 0 && a == kv * n / groups && b == kv / groups && kv * (n + 2) <= c * groups
    ensures a + b + b < c
  {
    Floor(kv * n, groups, a);
    Floor(kv, groups, b);
    assert (a + b + b) * groups == a * groups + b * groups + b * groups;
    assert kv * (n + 2) == kv * n + kv + kv;
    if a + b + b >= c {
      Monotone(c, a + b + b, groups);
    }
  }

  lemma Floor(x: nat, d: nat, q: nat)
    requires d > 0 && q == x / d
    ensures q * d <= x && (x % d != 0 ==> q * d < x)
  {
    assert x == q * d + x % d;
  }

  // ---------- when merging shards succeeds, and when it is right ----------

  lemma {:induction false} ChunksSized<T>(shards: seq<seq<T>>, n: nat, size: nat)
    requires n > 0 && forall i :: 0 <= i < |shards| ==> AllOfSize(TorchChunk(shards[i], n), size)
    ensures AllOfSize(ChunksOf(shards, n), size)
  {
    if shards != [] {
      ChunksSized(shards[..|shards| - 1], n, size);
    }
  }

  lemma {:induction false} FirstChunk<T>(shards: seq<seq<T>>, n: nat)
    requires n > 0 && shards != [] && TorchChunk(shards[0], n) != []
    ensures ChunksOf(shards, n) != [] && ChunksOf(shards, n)[0] == TorchChunk(shards[0], n)[0]
  {
    if |shards| > 1 {
      FirstChunk(shards[..|shards| - 1], n);
    } else {
      assert shards[..0] == [];
    }
  }

  lemma OneShard<T>(shards: seq<seq<T>>, n: nat)
    requires n > 0 && shards != []
    ensures ChunksOf(shards[..1], n) == TorchChunk(shards[0], n)
  {
    assert shards[..1][..0] == [] && shards[..1][0] == shards[0];
  }

  /** Merging equal shards succeeds if and only if their rows divide into equal heads
      of n groups each. */
  lemma MergeSucceedsIff<T>(tpData: seq<seq<T>>, perKv: nat, n: nat, rows: nat)
    requires tpData != [] && n > 0 && AllOfSize(tpData, rows)
    ensures MergeSpec(tpData, perKv, n).Some? <==> rows % (perKv + 2) == 0 && rows / (perKv + 2) % n == 0
  {
    if rows % (perKv + 2) == 0 {
      var kv, sizes := rows / (perKv + 2), SizesFor(rows, perKv, n);
      RowsOf(rows, perKv + 2, kv);
      if kv % n == 0 {
        DivMod(kv, n, kv / n, 0);
        forall i | 0 <= i < |tpData| ensures AllOfSize(TorchChunk(tpData[i], n), sizes.a + sizes.b + sizes.b) {
          SplitOfExact(tpData[i], perKv, n, kv, kv / n);
        }
        ChunksSized(tpData, n, sizes.a + sizes.b + sizes.b);
      } else {
        SplitOfInexact(tpData[0], perKv, n, kv);
        if AllOfSize(ChunksOf(tpData, n), sizes.a + sizes.b + sizes.b) {
          ChunksPrefix(tpData, n, 1, sizes.a + sizes.b + sizes.b);
          OneShard(tpData, n);
        }
      }
    }
  }

  /** After the query rows of the first group comes its first key row. */
  lemma AfterQueries<T>(x: Qkv<T>, groups: nat, a: nat, b: nat)
    requires groups > 0 && a > 0 && b > 0 && |x.q| == groups * a && |x.k| == |x.v| == groups * b
    ensures a < |Pack(x, groups, a, b)| && |x.k| > 0 && Pack(x, groups, a, b)[a] == x.k[0]
  {
    BlockAt(x.q, a, groups, 0);
    BlockAt(x.k, b, groups, 0);
    BlockAt(x.v, b, groups, 0);
    Positive(groups, b);
    var zip := Zip(Blocks(x.q, a), Blocks(x.k, b), Blocks(x.v, b));
    assert Flatten(zip) == zip[0] + Flatten(zip[1..]);
    assert zip[0][a] == Blocks(x.k, b)[0][0];
  }

  /** Fewer groups than there are leave more rows to each. */
  lemma WiderThan(groups: nat, tp: nat, m: nat, d: nat, b: nat, wide: nat)
    requires d > 0 && b > 0 && tp * m < groups && tp * (d * (m * wide)) == groups * (d * b)
    ensures wide > b
  {
    assert tp * (d * (m * wide)) == d * (tp * m * wide) && groups * (d * b) == d * (groups * b);
    if tp * m * wide < groups * b {
      Monotone(tp * m * wide + 1, groups * b, d);
    } else if tp * m * wide > groups * b {
      Monotone(groups * b + 1, tp * m * wide, d);
    }
    if wide <= b {
      Monotone(wide, b, tp * m);
      Monotone(tp * m + 1, groups, b);
    }
  }

  lemma ColumnsBegin<T>(blocks: seq<seq<T>>, hi: nat)
    requires blocks != [] && hi <= |blocks[0]|
    ensures hi <= |Columns(blocks, 0, hi)| && Columns(blocks, 0, hi)[..hi] == blocks[0][..hi]
  {
    ColumnsConcat([blocks[0]], blocks[1..], 0, hi);
    assert blocks == [blocks[0]] + blocks[1..];
    assert Columns([blocks[0]], 0, hi) == blocks[0][..hi];
  }

  /** The merged query rows begin with the rows of the first shard. */
  lemma MergeBegins<T>(tpData: seq<seq<T>>, perKv: nat, n: nat, rows: nat, wide: nat, i: nat)
    requires tpData != [] && n > 0 && rows > 0 && AllOfSize(tpData, rows) && MergeSpec(tpData, perKv, n).Some?
    requires rows == n * (perKv * wide + wide + wide) && i < perKv * wide
    ensures var q := MergeSpec(tpData, perKv, n).value.q; i < |q| && i < rows && q[i] == tpData[0][i]
  {
    SizesExact(rows, perKv, n, wide);
    var size, a := perKv * wide + wide + wide, perKv * wide;
    ChunkExact(tpData[0], n, size);
    BlockAt(tpData[0], size, n, 0);
    FirstChunk(tpData, n);
    ColumnsBegin(ChunksOf(tpData, n), a);
    assert MergeSpec(tpData, perKv, n).value.q[..a] == tpData[0][..a];
  }

  /** When tp does not divide the groups and merging succeeds all the same, a key row
      stands among the query rows. */
  lemma MergeMixes<T>(x: Qkv<T>, groups: nat, n: nat, a: nat, b: nat, tp: nat, m: nat, rows: nat)
    requires a > 0 && b > 0 && a == n * b && 0 < tp <= groups && m == groups / tp && groups % tp != 0
    requires |x.q| == groups * a && |x.k| == |x.v| == groups * b
    requires rows > 0 && |Pack(x, groups, a, b)| == tp * rows
    requires MergeSpec(Blocks(Pack(x, groups, a, b), rows), n, m).Some?
    ensures var q := MergeSpec(Blocks(Pack(x, groups, a, b), rows), n, m).value.q;
            a < |q| && |x.k| > 0 && q[a] == x.k[0]
  {
    var t := Pack(x, groups, a, b);
    var shards := Blocks(t, rows);
    PackColumns(x, groups, a, b);
    BlocksExact(t, rows, tp);
    MergeSucceedsIff(shards, n, m, rows);
    var kv := rows / (n + 2);
    RowsOf(rows, n + 2, kv);
    var wide := kv / m;
    RowsOf(kv, m, wide);
    MergeShape(groups, n, a, b, tp, m, rows, kv, wide);
    MergeBegins(shards, n, m, rows, wide, a);
    BlockAt(t, rows, tp, 0);
    AfterQueries(x, groups, a, b);
  }

  lemma MergeShape(groups: nat, n: nat, a: nat, b: nat, tp: nat, m: nat, rows: nat, kv: nat, wide: nat)
    requires a > 0 && b > 0 && a == n * b && 0 < tp && m == groups / tp && groups % tp != 0
    requires rows == kv * (n + 2) && kv == wide * m && tp * rows == groups * (a + b + b)
    ensures rows == m * (n * wide + wide + wide) && a < n * wide
  {
    DivMod(groups, tp, m, groups % tp);
    assert m * tp == tp * m;
    assert kv * (n + 2) == (n + 2) * (m * wide) && a + b + b == (n + 2) * b;
    WiderThan(groups, tp, m, n + 2, b, wide);
    assert (n + 2) * (m * wide) == m * ((n + 2) * wide);
    assert (n + 2) * wide == n * wide + wide + wide;
    Monotone(b + 1, wide, n);
    assert (b + 1) * n == n * b + n && wide * n == n * wide;
  }

  /** Merging the tp equal shards of a packed tensor, for any tp up to the number of
      groups, gives q, k and v if and only if tp divides the groups, when the first key
      row is not also a query row. For other tp it still succeeds if and only if the
      rows of a shard divide into equal heads of groups / tp groups. */
  lemma PackShardMergeIff<T>(x: Qkv<T>, heads: nat, groups: nat, b: nat, tp: nat, rows: nat)
    requires groups > 0 && heads > 0 && heads % groups == 0 && b > 0 && 0 < tp <= groups
    requires |x.q| == groups * (heads / groups * b) && |x.k| == |x.v| == groups * b
    requires groups * (heads / groups * b + b + b) == tp * rows
    ensures heads / groups * b > 0 && rows > 0 && |x.k| > 0
    ensures var merged := MergeSpec(Blocks(Pack(x, groups, heads / groups * b, b), rows), heads / groups, groups / tp);
            && (merged.Some? <==> && rows % (heads / groups + 2) == 0
                                  && rows / (heads / groups + 2) % (groups / tp) == 0)
            && (groups % tp == 0 ==> merged == Some(x))
            && (x.k[0] !in x.q && merged == Some(x) ==> groups % tp == 0)
  {
    var n := heads / groups;
    assert n > 0;
    Positive(n, b);
    Positive(groups, n * b + b + b);
    Positive(groups, b);
    assert tp * 0 == 0;
    ShardMergeIffSized(x, groups, n, n * b, b, tp, groups / tp, rows);
  }

  lemma ShardMergeIffSized<T>(x: Qkv<T>, groups: nat, n: nat, a: nat, b: nat, tp: nat, m: nat, rows: nat)
    requires a > 0 && b > 0 && a == n * b && 0 < tp <= groups && m == groups / tp && m > 0
    requires |x.q| == groups * a && |x.k| == |x.v| == groups * b && |x.k| > 0
    requires rows > 0 && groups * (a + b + b) == tp * rows
    ensures var merged := MergeSpec(Blocks(Pack(x, groups, a, b), rows), n, m);
            && (merged.Some? <==> rows % (n + 2) == 0 && rows / (n + 2) % m == 0)
            && (groups % tp == 0 ==> merged == Some(x))
            && (x.k[0] !in x.q && merged == Some(x) ==> groups % tp == 0)
  {
    var t := Pack(x, groups, a, b);
    PackColumns(x, groups, a, b);
    BlocksExact(t, rows, tp);
    MergeSucceedsIff(Blocks(t, rows), n, m, rows);
    if groups % tp == 0 {
      DivMod(groups, tp, m, 0);
      assert m * tp == tp * m;
      ShardMergeSized(x, groups, n, a, b, tp, m);
      ChunkExact(t, tp, rows);
    } else if MergeSpec(Blocks(t, rows), n, m).Some? {
      MergeMixes(x, groups, n, a, b, tp, m, rows);
    }
  }

  /** Three groups of two query heads and two rows a head, on two shards: merging
      succeeds and puts the first key row among the query rows. */
  lemma ThreeGroupsOnTwoShards<T>(x: Qkv<T>)
    requires |x.q| == 12 && |x.k| == |x.v| == 6
    ensures var merged := MergeSpec(Blocks(Pack(x, 3, 4, 2), 12), 2, 1);
            merged.Some? && 4 < |merged.value.q| && merged.value.q[4] == x.k[0]
  {
    ShardMergeIffSized(x, 3, 2, 4, 2, 2, 1, 12);
    PackColumns(x, 3, 4, 2);
    MergeMixes(x, 3, 2, 4, 2, 2, 1, 12);
  }
}
