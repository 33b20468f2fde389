/** The search for the layer counts of the pipeline stages
    (verl/model_merger/megatron_model_merger.py, get_dynamic_pipeline_shards). */
module PipelineShards {
  import opened Arithmetic
  import opened Sequences

  /** ValueError and IndexError are the exceptions the search can raise; the latter
      comes from taking the first of no candidates. */
  datatype Outcome = Shards(counts: seq<int>) | ValueError | IndexError

  datatype Candidate = Candidate(counts: seq<int>, diff: int)

  function Repeat(x: int, n: nat): (r: seq<int>)
    ensures |r| == n && forall i :: 0 <= i < n ==> r[i] == x
  {
    seq(n, _ => x)
  }

  function Abs(x: int): nat {
    if x < 0 then -x else x
  }

  // ---------- the search ----------

  /** The layers left for the first and last stage. */
  function Ends(layerNum: int, ppSize: int, m: int): int {
    layerNum - m * (ppSize - 2)
  }

  predicate Usable(layerNum: int, ppSize: int, m: int) {
    var ends := Ends(layerNum, ppSize, m);
    0 < ends / 2 <= m && 0 < ends - ends / 2 <= m
  }

  function CandidateFor(layerNum: int, ppSize: int, m: int): Candidate
    requires ppSize >= 2
  {
    var ends := Ends(layerNum, ppSize, m);
    Candidate([ends / 2] + Repeat(m, ppSize - 2) + [ends - ends / 2], Abs(ends / 2 - m))
  }

  /** The first candidate in the order of the stable sort by difference. */
  method FirstOfSorted(candidates: seq<Candidate>) returns (best: nat)
    requires candidates != []
    ensures best < |candidates|
    ensures forall i :: 0 <= i < |candidates| ==> candidates[best].diff <= candidates[i].diff
    ensures forall i :: 0 <= i < best ==> candidates[best].diff < candidates[i].diff
  {
    best := 0;
    for i: nat := 0 to |candidates|
      invariant best < |candidates| && best <= i && (i > 0 ==> best < i)
      invariant forall j :: 0 <= j < i ==> candidates[best].diff <= candidates[j].diff
      invariant forall j :: 0 <= j < best ==> candidates[best].diff < candidates[j].diff
    {
      if candidates[i].diff < candidates[best].diff {
        best := i;
      }
    }
  }

  method GetDynamicPipelineShards(layerNum: int, ppSize: int) returns (r: Outcome)
    ensures r == ClosedForm(layerNum, ppSize)
  {
    if layerNum < ppSize {
      return ValueError;
    }
    if ppSize < 1 {
      return ValueError;
    }
    if ppSize == 1 {
      return Shards([layerNum]);
    }
    if ppSize == 2 {
      return Shards([layerNum / 2, layerNum - layerNum / 2]);
    }
    var candidates: seq<Candidate> := [];
    var least := CeilDiv(layerNum, ppSize);
    for m := 0 to layerNum
      invariant candidates != [] <==> exists k :: 0 <= k < m && Usable(layerNum, ppSize, k)
      invariant m <= least ==> candidates == []
      invariant least < m && Usable(layerNum, ppSize, least) ==>
                  IsBest(candidates, CandidateFor(layerNum, ppSize, least))
    {
      UsableIff(layerNum, ppSize, m);
      if Usable(layerNum, ppSize, m) {
        SomeThenLeast(layerNum, ppSize, m);
        if m > least {
          FartherOff(layerNum, ppSize, least, m);
        }
        candidates := candidates + [CandidateFor(layerNum, ppSize, m)];
      }
    }
    LeastInRange(layerNum, ppSize);
    if candidates == [] {
      UsableIff(layerNum, ppSize, least);
      return IndexError;
    }
    ghost var k :| 0 <= k < layerNum && Usable(layerNum, ppSize, k);
    SomeThenLeast(layerNum, ppSize, k);
    UsableIff(layerNum, ppSize, least);
    var best := FirstOfSorted(candidates);
    r := Shards(candidates[best].counts);
  }

  predicate IsBest(candidates: seq<Candidate>, c: Candidate) {
    candidates != [] && candidates[0] == c && forall i :: 0 < i < |candidates| ==> candidates[i].diff > c.diff
  }

  // ---------- its closed form ----------

  /** The middle stages get the mean rounded up, if that leaves two layers for the ends. */
  function ClosedForm(layerNum: int, ppSize: int): Outcome {
    if layerNum < ppSize || ppSize < 1 then ValueError
    else if ppSize == 1 then Shards([layerNum])
    else if ppSize == 2 then Shards([layerNum / 2, layerNum - layerNum / 2])
    else
      var m := CeilDiv(layerNum, ppSize);
      if m * (ppSize - 2) + 2 <= layerNum then Shards(CandidateFor(layerNum, ppSize, m).counts) else IndexError
  }

  /** A middle size is usable exactly between the mean rounded up and the largest
      that leaves two layers. */
  lemma UsableIff(layerNum: int, ppSize: int, m: int)
    requires 3 <= ppSize <= layerNum
    ensures Usable(layerNum, ppSize, m) <==> CeilDiv(layerNum, ppSize) <= m && m * (ppSize - 2) + 2 <= layerNum
  {
    CeilDivIs(layerNum, ppSize, m);
    assert m * (ppSize - 2) == m * ppSize - 2 * m;
  }

  lemma LeastInRange(layerNum: int, ppSize: int)
    requires 3 <= ppSize <= layerNum
    ensures 0 < CeilDiv(layerNum, ppSize) < layerNum
  {
    CeilDivIs(layerNum, ppSize, 0);
    CeilDivIs(layerNum, ppSize, layerNum - 1);
    Monotone(3, ppSize, layerNum - 1);
  }

  /** If any middle size is usable, the least one is. */
  lemma SomeThenLeast(layerNum: int, ppSize: int, k: int)
    requires 3 <= ppSize <= layerNum && Usable(layerNum, ppSize, k)
    ensures Usable(layerNum, ppSize, CeilDiv(layerNum, ppSize))
  {
    var m := CeilDiv(layerNum, ppSize);
    UsableIff(layerNum, ppSize, k);
    UsableIff(layerNum, ppSize, m);
    Monotone(m, k, ppSize - 2);
  }

  /** A larger middle size is farther from the size of the first stage. */
  lemma FartherOff(layerNum: int, ppSize: int, m: int, k: int)
    requires 3 <= ppSize && m < k && Usable(layerNum, ppSize, m) && Usable(layerNum, ppSize, k)
    ensures CandidateFor(layerNum, ppSize, m).diff < CandidateFor(layerNum, ppSize, k).diff
  {
    Monotone(m, k, ppSize - 2);
    assert Ends(layerNum, ppSize, k) <= Ends(layerNum, ppSize, m);
  }

  // ---------- what the result is ----------

  /** The search finds a candidate if and only if the mean rounded up leaves two
      layers for the ends. */
  lemma CandidateExistsIff(layerNum: int, ppSize: int)
    requires 3 <= ppSize <= layerNum
    ensures (exists k :: 0 <= k < layerNum && Usable(layerNum, ppSize, k))
            <==> CeilDiv(layerNum, ppSize) * (ppSize - 2) + 2 <= layerNum
  {
    var m := CeilDiv(layerNum, ppSize);
    LeastInRange(layerNum, ppSize);
    UsableIff(layerNum, ppSize, m);
    if k :| 0 <= k < layerNum && Usable(layerNum, ppSize, k) {
      SomeThenLeast(layerNum, ppSize, k);
    }
  }

  /** Equal middle stages of m layers, and ends as even as can be, none larger. */
  predicate IsPlacement(layerNum: int, ppSize: int, m: int, first: int, last: int) {
    0 < first <= last <= first + 1 && last <= m && first + m * (ppSize - 2) + last == layerNum
  }

  lemma PlacementIff(layerNum: int, ppSize: int, m: int)
    ensures Usable(layerNum, ppSize, m) <==> exists first, last :: IsPlacement(layerNum, ppSize, m, first, last)
  {
    var ends := Ends(layerNum, ppSize, m);
    if Usable(layerNum, ppSize, m) {
      assert IsPlacement(layerNum, ppSize, m, ends / 2, ends - ends / 2);
    }
  }

  /** Two stages need no placement of middle stages, and from three on the search
      succeeds if and only if there is one; only too few layers or stages are a
      ValueError. */
  lemma OutcomeIs(layerNum: int, ppSize: int)
    ensures ClosedForm(layerNum, ppSize).ValueError? <==> layerNum < ppSize || ppSize < 1
    ensures ClosedForm(layerNum, ppSize).Shards?
            <==> && 1 <= ppSize <= layerNum
                 && (ppSize <= 2 || exists m, first, last :: IsPlacement(layerNum, ppSize, m, first, last))
  {
    if 3 <= ppSize <= layerNum {
      var m := CeilDiv(layerNum, ppSize);
      UsableIff(layerNum, ppSize, m);
      PlacementIff(layerNum, ppSize, m);
      if k, first, last :| IsPlacement(layerNum, ppSize, k, first, last) {
        PlacementIff(layerNum, ppSize, k);
        SomeThenLeast(layerNum, ppSize, k);
      }
    }
  }

  /** The condition does fail: five layers cannot be placed on four stages. */
  lemma FiveLayersOnFourStages()
    ensures ClosedForm(5, 4) == IndexError
  {
    assert CeilDiv(5, 4) == 2;
  }

  lemma {:induction false} SumRepeat(x: int, n: nat)
    ensures Sum(Repeat(x, n)) == x * n
  {
    if n > 0 {
      assert Repeat(x, n)[..n - 1] == Repeat(x, n - 1);
      SumRepeat(x, n - 1);
    }
  }

  lemma {:induction false} SumConcat(a: seq<int>, b: seq<int>)
    ensures Sum(a + b) == Sum(a) + Sum(b)
  {
    if b == [] {
      assert a + b == a;
    } else {
      assert (a + b)[..|a| + |b| - 1] == a + b[..|b| - 1];
      SumConcat(a, b[..|b| - 1]);
    }
  }

  lemma SumEnds(first: int, m: int, n: nat, last: int)
    ensures Sum([first] + Repeat(m, n) + [last]) == first + m * n + last
  {
    SumRepeat(m, n);
    SumConcat([first], Repeat(m, n));
    SumConcat([first] + Repeat(m, n), [last]);
    assert Sum([first]) == first && Sum([last]) == last;
  }

  /** The stages hold all layers, none is empty, the last has at most one layer more
      than the first, and none has more than the mean rounded up. */
  lemma ShardsAreUniform(layerNum: int, ppSize: int)
    requires ClosedForm(layerNum, ppSize).Shards?
    ensures var counts := ClosedForm(layerNum, ppSize).counts;
            && |counts| == ppSize && Sum(counts) == layerNum
            && (forall i :: 0 <= i < ppSize ==> 0 < counts[i] <= CeilDiv(layerNum, ppSize))
            && counts[0] <= counts[ppSize - 1] <= counts[0] + 1
  {
    var m := CeilDiv(layerNum, ppSize);
    if ppSize >= 3 {
      UsableIff(layerNum, ppSize, m);
      UsableIsUniform(layerNum, ppSize, m);
    } else if ppSize == 2 {
      var half := layerNum / 2;
      SumEnds(half, 0, 0, layerNum - half);
      assert [half] + Repeat(0, 0) + [layerNum - half] == [half, layerNum - half];
    }
  }

  lemma UsableIsUniform(layerNum: int, ppSize: int, m: int)
    requires 3 <= ppSize && Usable(layerNum, ppSize, m)
    ensures var counts := CandidateFor(layerNum, ppSize, m).counts;
            && |counts| == ppSize && Sum(counts) == layerNum
            && (forall i :: 0 <= i < ppSize ==> 0 < counts[i] <= m)
            && counts[0] <= counts[ppSize - 1] <= counts[0] + 1
  {
    var ends := Ends(layerNum, ppSize, m);
    SumEnds(ends / 2, m, ppSize - 2, ends - ends / 2);
  }

  lemma {:induction false} SumBounded(counts: seq<int>, bound: int)
    requires forall i :: 0 <= i < |counts| ==> counts[i] <= bound
    ensures Sum(counts) <= |counts| * bound
  {
    if counts != [] {
      SumBounded(counts[..|counts| - 1], bound);
    }
  }

  /** No placement on as many stages has a smaller largest stage. */
  lemma NoSmallerMaximum(counts: seq<int>, layerNum: int)
    requires counts != [] && Sum(counts) == layerNum
    ensures exists i :: 0 <= i < |counts| && counts[i] >= CeilDiv(layerNum, |counts|)
  {
    var m := CeilDiv(layerNum, |counts|);
    if forall i :: 0 <= i < |counts| ==> counts[i] <= m - 1 {
      SumBounded(counts, m - 1);
      CeilDivIs(layerNum, |counts|, m - 1);
    }
  }
}
