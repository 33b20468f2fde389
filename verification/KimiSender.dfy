/** Cutting the tensors of one rank into buckets
    (verl/checkpoint_engine/kimi_checkpoint_engine.py, ckpt_get_named_tensor_buckets). */
module KimiSender {
  import opened Arithmetic
  import opened OrderedDicts
  import opened Sequences
  import opened Wrappers

  datatype Tensor = Tensor(name: string, nbytes: nat, data: seq<int>)

  function SizeOf(bucket: seq<Tensor>): nat {
    if bucket == [] then 0 else SizeOf(bucket[..|bucket| - 1]) + bucket[|bucket| - 1].nbytes
  }

  // ---------- the tensors of a rank ----------

  /** The tensors whose index is the rank modulo the number of ranks. */
  function Mine(tensors: seq<Tensor>, world: nat, rank: nat): seq<Tensor>
    requires world > 0
  {
    if tensors == [] then [] else
      var n := |tensors| - 1;
      Mine(tensors[..n], world, rank) + if n % world == rank then [tensors[n]] else []
  }

  /** How many indices below n belong to the rank. */
  function Count(n: nat, world: nat, rank: nat): nat
    requires world > 0
  {
    if n == 0 then 0 else Count(n - 1, world, rank) + if (n - 1) % world == rank then 1 else 0
  }

  lemma {:induction false} CountIs(n: nat, world: nat, rank: nat, q: nat, r: nat)
    requires rank < world && r < world && n == q * world + r
    ensures Count(n, world, rank) == q + if r > rank then 1 else 0
  {
    if r > 0 {
      ModOf(q, world, r - 1);
      CountIs(n - 1, world, rank, q, r - 1);
    } else if q > 0 {
      FlatLength(q - 1, world);
      ModOf(q - 1, world, world - 1);
      CountIs(n - 1, world, rank, q - 1, world - 1);
    }
  }

  lemma CountOf(n: nat, world: nat, rank: nat, q: nat, r: nat)
    requires rank < world && q == n / world && r == n % world
    ensures Count(n, world, rank) == q + if r > rank then 1 else 0
  {
    DivMod(n, world, q, r);
    CountIs(n, world, rank, q, r);
  }

  /** Tensor i goes to rank i mod world, as number i / world there; so every tensor is
      at exactly one place of exactly one rank. */
  lemma {:induction false} TensorGoesTo(tensors: seq<Tensor>, world: nat, i: nat)
    requires world > 0 && i < |tensors|
    ensures i / world < |Mine(tensors, world, i % world)| && Mine(tensors, world, i % world)[i / world] == tensors[i]
  {
    var n := |tensors| - 1;
    MineSize(tensors[..n], world, i % world);
    CountOf(n, world, i % world, n / world, n % world);
    if i < n {
      TensorGoesTo(tensors[..n], world, i);
    }
  }

  lemma {:induction false} MineSize(tensors: seq<Tensor>, world: nat, rank: nat)
    requires world > 0
    ensures |Mine(tensors, world, rank)| == Count(|tensors|, world, rank)
  {
    if tensors != [] {
      MineSize(tensors[..|tensors| - 1], world, rank);
    }
  }

  /** The tensors of a rank are in the given order, and there are no others. */
  lemma {:induction false} MineAt(tensors: seq<Tensor>, world: nat, rank: nat, j: nat, k: nat)
    requires rank < world && j < |Mine(tensors, world, rank)| && k == j * world + rank
    ensures k < |tensors| && Mine(tensors, world, rank)[j] == tensors[k]
  {
    var n := |tensors| - 1;
    MineSize(tensors[..n], world, rank);
    if j < |Mine(tensors[..n], world, rank)| {
      MineAt(tensors[..n], world, rank, j, k);
    } else {
      LastOf(n, world, rank, n / world, n % world, j, k);
    }
  }

  lemma LastOf(n: nat, world: nat, rank: nat, q: nat, r: nat, j: nat, k: nat)
    requires world > 0 && q == n / world && r == n % world && r == rank
    requires j == Count(n, world, rank) && k == j * world + rank
    ensures k == n
  {
    CountOf(n, world, rank, q, r);
    DivMod(n, world, q, r);
  }

  // ---------- buckets ----------

  datatype Filling = Filling(full: seq<seq<Tensor>>, current: seq<Tensor>)

  function FillFrom(all: seq<Tensor>, cap: int): Filling {
    if all == [] then Filling([], []) else
      Filled(FillFrom(all[..|all| - 1], cap), all[|all| - 1], cap)
  }

  function Filled(f: Filling, t: Tensor, cap: int): Filling {
    if SizeOf(f.current) + t.nbytes > cap && f.current != [] then Filling(f.full + [f.current], [t])
    else Filling(f.full, f.current + [t])
  }

  function BucketsOf(all: seq<Tensor>, cap: int): seq<seq<Tensor>> {
    var f := FillFrom(all, cap);
    if f.current == [] then f.full else f.full + [f.current]
  }

  function NameOf(t: Tensor): string {
    t.name
  }

  /** None is the ValueError for a bucket size that is not positive. */
  method NamedTensorBuckets(tensors: seq<Tensor>, bucketBytes: int, world: nat, rank: nat)
    returns (r: Option<seq<seq<Tensor>>>)
    requires rank < world
    ensures r == if bucketBytes <= 0 then None
                 else Some(Dicts(NameOf, BucketsOf(Mine(tensors, world, rank), bucketBytes)))
  {
    if bucketBytes <= 0 {
      return None;
    }
    var s := Sending([], [], 0);
    ghost var f := Filling([], []);
    for i := 0 to |tensors|
      invariant f == FillFrom(Mine(tensors[..i], world, rank), bucketBytes) && IsSending(s, f)
    {
      MineStep(tensors, world, rank, i);
      if i % world == rank {
        FillStep(Mine(tensors[..i], world, rank), tensors[i], bucketBytes);
        s := AddTensor(s, tensors[i], bucketBytes, f);
        f := Filled(f, tensors[i], bucketBytes);
      }
    }
    assert tensors[..|tensors|] == tensors;
    DictSize(NameOf, f.current);
    DictsAppend(NameOf, f.full, f.current);
    r := Some(if s.current != [] then s.yielded + [s.current] else s.yielded);
  }

  /** The loop's variables: the buckets yielded, the current one and the size added to it. */
  datatype Sending = Sending(yielded: seq<seq<Tensor>>, current: seq<Tensor>, currentSize: nat)

  predicate IsSending(s: Sending, f: Filling) {
    s.yielded == Dicts(NameOf, f.full) && s.current == Dict(NameOf, f.current) && s.currentSize == SizeOf(f.current)
  }

  method AddTensor(s: Sending, t: Tensor, bucketBytes: int, ghost f: Filling) returns (s': Sending)
    requires IsSending(s, f)
    ensures IsSending(s', Filled(f, t, bucketBytes))
  {
    var yielded, current, currentSize := s.yielded, s.current, s.currentSize;
    FilledDicts(f, t, bucketBytes);
    if currentSize + t.nbytes > bucketBytes {
      if current != [] {
        yielded := yielded + [current];
        current, currentSize := [], 0;
      }
    }
    s' := Sending(yielded, Put(NameOf, current, t), currentSize + t.nbytes);
  }

  /** What one tensor does to the dictionaries. */
  lemma FilledDicts(f: Filling, t: Tensor, cap: int)
    ensures Dict(NameOf, f.current) == [] <==> f.current == []
    ensures var g := Filled(f, t, cap);
            if SizeOf(f.current) + t.nbytes > cap && f.current != []
            then Dicts(NameOf, g.full) == Dicts(NameOf, f.full) + [Dict(NameOf, f.current)]
                 && Dict(NameOf, g.current) == Put(NameOf, [], t) && SizeOf(g.current) == t.nbytes
            else g.full == f.full && Dict(NameOf, g.current) == Put(NameOf, Dict(NameOf, f.current), t)
                 && SizeOf(g.current) == SizeOf(f.current) + t.nbytes
  {
    DictSize(NameOf, f.current);
    DictsAppend(NameOf, f.full, f.current);
    DictAppend(NameOf, f.current, t);
    DictAppend(NameOf, [], t);
    SizeAppend(f.current, t);
    SizeAppend([], t);
    assert [] + [t] == [t];
  }

  lemma SizeAppend(bucket: seq<Tensor>, t: Tensor)
    ensures SizeOf(bucket + [t]) == SizeOf(bucket) + t.nbytes
  {
    assert (bucket + [t])[..|bucket|] == bucket;
  }

  lemma MineStep(tensors: seq<Tensor>, world: nat, rank: nat, i: nat)
    requires world > 0 && i < |tensors|
    ensures Mine(tensors[..i + 1], world, rank)
            == if i % world == rank then Mine(tensors[..i], world, rank) + [tensors[i]]
               else Mine(tensors[..i], world, rank)
  {
    assert tensors[..i + 1][..i] == tensors[..i];
  }

  lemma FillStep(all: seq<Tensor>, t: Tensor, cap: int)
    ensures FillFrom(all + [t], cap) == Filled(FillFrom(all, cap), t, cap)
  {
    assert (all + [t])[..|all|] == all;
  }

  /** No bucket is empty, a bucket of several tensors is within the cap, and the first
      tensor of the next bucket would not have fitted. */
  predicate WellFilled(buckets: seq<seq<Tensor>>, cap: int) {
    && (forall i :: 0 <= i < |buckets| ==> buckets[i] != [] && (|buckets[i]| > 1 ==> SizeOf(buckets[i]) <= cap))
    && forall i :: 0 < i < |buckets| ==> SizeOf(buckets[i - 1]) + buckets[i][0].nbytes > cap
  }

  lemma {:induction false} FillTiles(all: seq<Tensor>, cap: int)
    ensures var f := FillFrom(all, cap); Flatten(f.full + [f.current]) == all
  {
    if all == [] {
      assert Flatten([[]]) == all;
    } else {
      var n := |all| - 1;
      var f := FillFrom(all[..n], cap);
      FillTiles(all[..n], cap);
      FlattenAppend(f.full, f.current);
      FlattenAppend(f.full, f.current + [all[n]]);
      FlattenAppend(f.full + [f.current], [all[n]]);
      assert all == all[..n] + [all[n]];
    }
  }

  /** While filling: either nothing has come yet, or the current bucket counts as one more. */
  predicate FillingWell(f: Filling, cap: int) {
    if f.current == [] then f.full == [] else WellFilled(f.full + [f.current], cap)
  }

  lemma NewBucketWell(buckets: seq<seq<Tensor>>, t: Tensor, cap: int)
    requires buckets != [] && WellFilled(buckets, cap) && SizeOf(buckets[|buckets| - 1]) + t.nbytes > cap
    ensures WellFilled(buckets + [[t]], cap)
  {
  }

  lemma LongerBucketWell(full: seq<seq<Tensor>>, current: seq<Tensor>, t: Tensor, cap: int)
    requires current != [] && WellFilled(full + [current], cap) && SizeOf(current + [t]) <= cap
    ensures WellFilled(full + [current + [t]], cap)
  {
    var before, after := full + [current], full + [current + [t]];
    assert forall i :: 0 <= i < |full| ==> after[i] == before[i];
    assert after[|full|] == current + [t] && before[|full|] == current;
  }

  lemma FilledWell(f: Filling, t: Tensor, cap: int)
    requires FillingWell(f, cap)
    ensures FillingWell(Filled(f, t, cap), cap)
  {
    SizeAppend(f.current, t);
    if f.current == [] {
      assert f.full + [f.current + [t]] == [[t]];
    } else if SizeOf(f.current) + t.nbytes > cap {
      NewBucketWell(f.full + [f.current], t, cap);
    } else {
      LongerBucketWell(f.full, f.current, t, cap);
    }
  }

  lemma {:induction false} FillWell(all: seq<Tensor>, cap: int)
    ensures FillingWell(FillFrom(all, cap), cap)
  {
    if all != [] {
      FillWell(all[..|all| - 1], cap);
      FilledWell(FillFrom(all[..|all| - 1], cap), all[|all| - 1], cap);
    }
  }

  /** The buckets take the rank's tensors, each once and in order, and are well filled. */
  lemma BucketsAre(all: seq<Tensor>, cap: int)
    ensures Flatten(BucketsOf(all, cap)) == all && WellFilled(BucketsOf(all, cap), cap)
  {
    var f := FillFrom(all, cap);
    FillTiles(all, cap);
    FillWell(all, cap);
    FlattenAppend(f.full, f.current);
  }

  /** What is sent are the rank's tensors, each once and in order, if and only if no
      name is repeated within a bucket. */
  lemma NothingIsLostIff(all: seq<Tensor>, cap: int)
    ensures Flatten(Dicts(NameOf, BucketsOf(all, cap))) == all <==> NoneRepeats(NameOf, BucketsOf(all, cap))
    ensures DistinctItems(NameOf, all) ==> NoneRepeats(NameOf, BucketsOf(all, cap))
  {
    BucketsAre(all, cap);
    DictsKeepIff(NameOf, BucketsOf(all, cap));
    if DistinctItems(NameOf, all) {
      DistinctBuckets(NameOf, BucketsOf(all, cap));
    }
  }
}
