/** Cutting a tensor into consecutive blocks of rows, as torch.chunk does. */
module Chunking {
  import opened Arithmetic
  import opened Sequences

  /** Consecutive blocks of `size` rows; the last may be shorter. */
  function Blocks<T>(t: seq<T>, size: nat): seq<seq<T>>
    requires size > 0
  {
    if |t| <= size then (if t == [] then [] else [t]) else [t[..size]] + Blocks(t[size..], size)
  }

  /** torch.chunk: at most n blocks of the length divided by n, rounded up; an empty
      tensor gives n empty blocks. */
  function TorchChunk<T>(t: seq<T>, n: nat): seq<seq<T>>
    requires n > 0
  {
    if t == [] then seq(n, _ => []) else
      CeilDivIs(|t|, n, 0);
      Blocks(t, CeilDiv(|t|, n))
  }

  lemma {:induction false} BlocksTile<T>(t: seq<T>, size: nat)
    requires size > 0
    ensures Flatten(Blocks(t, size)) == t
    decreases |t|
  {
    if |t| > size {
      BlocksTile(t[size..], size);
      FlattenConcat([t[..size]], Blocks(t[size..], size));
      assert Flatten([t[..size]]) == t[..size] + Flatten<T>([]);
    } else if t != [] {
      assert Flatten([t]) == t + Flatten<T>([]);
    }
  }

  predicate AllOfSize<T>(blocks: seq<seq<T>>, size: nat) {
    forall i :: 0 <= i < |blocks| ==> |blocks[i]| == size
  }

  /** Cutting at the seams gives the blocks back. */
  lemma {:induction false} BlocksOfFlat<T>(blocks: seq<seq<T>>, size: nat)
    requires size > 0 && AllOfSize(blocks, size)
    ensures |Flatten(blocks)| == |blocks| * size && Blocks(Flatten(blocks), size) == blocks
  {
    if blocks != [] {
      BlocksOfFlat(blocks[1..], size);
      FlatLength(|blocks| - 1, size);
      var t := Flatten(blocks);
      assert t[..size] == blocks[0] && t[size..] == Flatten(blocks[1..]);
      if |blocks| == 1 {
        assert t == blocks[0] && blocks == [t];
      } else {
        Monotone(1, |blocks| - 1, size);
        assert blocks == [t[..size]] + blocks[1..];
      }
    }
  }

  /** A tensor of n * size rows is cut into n blocks of `size` rows. */
  lemma {:induction false} BlocksExact<T>(t: seq<T>, size: nat, n: nat)
    requires size > 0 && |t| == n * size
    ensures |Blocks(t, size)| == n && AllOfSize(Blocks(t, size), size)
    decreases n
  {
    if n > 0 {
      FlatLength(n - 1, size);
      if n > 1 {
        Monotone(1, n - 1, size);
        BlocksExact(t[size..], size, n - 1);
      } else {
        assert |t| == size;
      }
    }
  }

  /** The blocks of two parts, the first of which ends at a seam. */
  lemma {:induction false} BlocksConcat<T>(a: seq<T>, b: seq<T>, size: nat, n: nat)
    requires size > 0 && |a| == n * size
    ensures Blocks(a + b, size) == Blocks(a, size) + Blocks(b, size)
  {
    BlocksTile(b, size);
    if n == 0 {
      assert a == [] && a + b == b;
    } else {
      FlatLength(n - 1, size);
      Monotone(0, n - 1, size);
      var a' := a[size..];
      BlocksConcat(a', b, size, n - 1);
      assert (a + b)[..size] == a[..size] && (a + b)[size..] == a' + b;
      if |a| == size {
        assert a' == [] && a[..size] == a && a' + b == b;
        assert b == [] ==> a + b == a;
        assert Blocks(a, size) == [a];
      } else {
        assert Blocks(a, size) == [a[..size]] + Blocks(a', size);
        Associate([a[..size]], Blocks(a', size), Blocks(b, size));
      }
    }
  }

  /** Block i holds rows i * size to (i + 1) * size. */
  lemma BlockAt<T>(t: seq<T>, size: nat, n: nat, i: nat)
    requires size > 0 && |t| == n * size && i < n
    ensures 0 <= i * size <= i * size + size <= |t| && |Blocks(t, size)| == n
    ensures Blocks(t, size)[i] == t[i * size..i * size + size]
  {
    BlocksExact(t, size, n);
    Monotone(0, i, size);
    BlockFrom(t, size, n, i, i * size);
  }

  lemma {:induction false} BlockFrom<T>(t: seq<T>, size: nat, n: nat, i: nat, start: nat)
    requires size > 0 && |t| == n * size && i < n && start == i * size
    ensures start + size <= |t| && i < |Blocks(t, size)| && Blocks(t, size)[i] == t[start..start + size]
    decreases n
  {
    FlatLength(n - 1, size);
    Monotone(0, n - 1, size);
    if i > 0 {
      FlatLength(i - 1, size);
      Monotone(0, i - 1, size);
      BlockFrom(t[size..], size, n - 1, i - 1, start - size);
    }
  }

  /** A tensor of n * size rows is chunked into n blocks of `size` rows. */
  lemma ChunkExact<T>(t: seq<T>, n: nat, size: nat)
    requires n > 0 && size > 0 && |t| == n * size
    ensures TorchChunk(t, n) == Blocks(t, size)
  {
    Positive(n, size);
    assert n * size == size * n;
    CeilDivExact(size, n);
  }

  /** Block i begins at row i * size if the tensor reaches so far, and is the next `size`
      rows or the rest. */
  lemma {:induction false} BlockPart<T>(t: seq<T>, size: nat, i: nat, start: nat)
    requires size > 0 && start == i * size
    ensures i < |Blocks(t, size)| <==> start < |t|
    ensures start < |t| ==> Blocks(t, size)[i] == t[start..Min(start + size, |t|)]
    decreases i
  {
    if i > 0 {
      FlatLength(i - 1, size);
      Monotone(0, i - 1, size);
      if |t| > size {
        BlockPart(t[size..], size, i - 1, start - size);
      }
    }
  }

  /** torch.chunk gives fewer parts than asked for: the rounded-up size uses up the rows
      too early. */
  predicate TooFew(n: nat, chunks: nat)
    requires chunks > 0
  {
    n > 0 && (chunks - 1) * CeilDiv(n, chunks) >= n
  }

  lemma TorchCount<T>(t: seq<T>, chunks: nat)
    requires chunks > 0
    ensures |TorchChunk(t, chunks)| <= chunks
    ensures |TorchChunk(t, chunks)| == chunks <==> !TooFew(|t|, chunks)
  {
    if t != [] {
      var c := CeilDiv(|t|, chunks);
      CeilDivIs(|t|, chunks, 0);
      CeilDivIs(|t|, chunks, c);
      Monotone(0, chunks - 1, c);
      Monotone(0, chunks, c);
      BlockPart(t, c, chunks - 1, (chunks - 1) * c);
      BlockPart(t, c, chunks, chunks * c);
    }
  }
}
