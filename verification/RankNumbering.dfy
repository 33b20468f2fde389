/** The global layer numbers of all pipeline ranks together
    (verl/model_merger/megatron_model_merger.py, _merge_state_dicts): a rank starts at
    the sum of the shards of the ranks before it. */
module RankNumbering {
  import opened LayerNumbering
  import opened PipelineShards
  import opened Sequences

  /** What one rank does with its own chunks. */
  method RenumberRank(chunks: seq<seq<nat>>, shards: seq<nat>, rank: nat) returns (global: seq<seq<nat>>)
    requires rank < |shards|
    ensures |global| == |chunks|
    ensures forall k :: 0 <= k < |chunks| ==> ShiftedAt(global, chunks, Before(shards, rank), k)
  {
    var layersCum := 0;
    for r := 0 to rank
      invariant layersCum == Before(shards, r)
    {
      layersCum := layersCum + shards[r];
    }
    global := Renumber(chunks, layersCum);
  }

  /** A layer of a chunk of a rank. */
  datatype Place = Place(rank: nat, chunk: nat, layer: nat)

  predicate RankHas(chunks: seq<seq<nat>>, counts: seq<nat>, layers: nat) {
    AllHaveLayers(chunks, counts) && Before(counts, |counts|) == layers
  }

  /** Rank r holds shards[r] layers, counts[r][k] of them in its chunk k. */
  predicate RanksHave(ranks: seq<seq<seq<nat>>>, counts: seq<seq<nat>>, shards: seq<nat>) {
    |ranks| == |counts| == |shards| && forall r :: 0 <= r < |ranks| ==> RankHas(ranks[r], counts[r], shards[r])
  }

  predicate In(p: Place, counts: seq<seq<nat>>) {
    p.rank < |counts| && p.chunk < |counts[p.rank]| && p.layer < counts[p.rank][p.chunk]
  }

  /** The number a layer gets. */
  function GlobalNo(ranks: seq<seq<seq<nat>>>, counts: seq<seq<nat>>, shards: seq<nat>, p: Place): nat
    requires RanksHave(ranks, counts, shards) && In(p, counts)
  {
    assert RankHas(ranks[p.rank], counts[p.rank], shards[p.rank]);
    Offset(ranks[p.rank], Before(shards, p.rank), p.chunk) + p.layer
  }

  /** The number of layers before it. */
  function TrueNo(counts: seq<seq<nat>>, shards: seq<nat>, p: Place): nat
    requires |counts| == |shards| && In(p, counts)
  {
    Before(shards, p.rank) + Before(counts[p.rank], p.chunk) + p.layer
  }

  lemma GlobalIs(ranks: seq<seq<seq<nat>>>, counts: seq<seq<nat>>, shards: seq<nat>, p: Place)
    requires RanksHave(ranks, counts, shards) && In(p, counts)
    ensures GlobalNo(ranks, counts, shards, p) == TrueNo(counts, shards, p) + Empties(counts[p.rank], p.chunk)
  {
    assert RankHas(ranks[p.rank], counts[p.rank], shards[p.rank]);
    OffsetIs(ranks[p.rank], counts[p.rank], Before(shards, p.rank), p.chunk);
  }

  // ---------- true numbers ----------

  lemma {:induction false} BeforeMonotone(counts: seq<nat>, i: nat, j: nat)
    requires i <= j <= |counts|
    ensures Before(counts, i) <= Before(counts, j)
  {
    if i < j {
      BeforeMonotone(counts, i, j - 1);
    }
  }

  /** The part that holds number g. */
  lemma {:induction false} Locate(counts: seq<nat>, n: nat, g: nat) returns (k: nat)
    requires n <= |counts| && g < Before(counts, n)
    ensures k < n && Before(counts, k) <= g < Before(counts, k) + counts[k]
  {
    if g < Before(counts, n - 1) {
      k := Locate(counts, n - 1, g);
    } else {
      k := n - 1;
    }
  }

  lemma {:induction false} Later(counts: seq<nat>, i: nat, j: nat)
    requires i < j <= |counts|
    ensures Before(counts, i) + counts[i] <= Before(counts, j)
  {
    if i < j - 1 {
      Later(counts, i, j - 1);
    }
  }

  lemma SamePart(counts: seq<nat>, i: nat, j: nat, g: nat)
    requires i < |counts| && j < |counts|
    requires Before(counts, i) <= g < Before(counts, i) + counts[i]
    requires Before(counts, j) <= g < Before(counts, j) + counts[j]
    ensures i == j
  {
    if i < j {
      Later(counts, i, j);
    } else if j < i {
      Later(counts, j, i);
    }
  }

  lemma TruePlace(ranks: seq<seq<seq<nat>>>, counts: seq<seq<nat>>, shards: seq<nat>, g: nat) returns (p: Place)
    requires RanksHave(ranks, counts, shards) && g < Before(shards, |shards|)
    ensures In(p, counts) && TrueNo(counts, shards, p) == g
  {
    var r := Locate(shards, |shards|, g);
    assert RankHas(ranks[r], counts[r], shards[r]);
    var rest := g - Before(shards, r);
    var k := Locate(counts[r], |counts[r]|, rest);
    p := Place(r, k, rest - Before(counts[r], k));
  }

  lemma TrueWithin(ranks: seq<seq<seq<nat>>>, counts: seq<seq<nat>>, shards: seq<nat>, p: Place)
    requires RanksHave(ranks, counts, shards) && In(p, counts)
    ensures Before(shards, p.rank) <= TrueNo(counts, shards, p) < Before(shards, p.rank) + shards[p.rank]
    ensures TrueNo(counts, shards, p) < Before(shards, |shards|)
  {
    assert RankHas(ranks[p.rank], counts[p.rank], shards[p.rank]);
    BeforeMonotone(counts[p.rank], p.chunk + 1, |counts[p.rank]|);
    BeforeMonotone(shards, p.rank + 1, |shards|);
  }

  lemma TrueUnique(ranks: seq<seq<seq<nat>>>, counts: seq<seq<nat>>, shards: seq<nat>, p: Place, q: Place)
    requires RanksHave(ranks, counts, shards) && In(p, counts) && In(q, counts)
    requires TrueNo(counts, shards, p) == TrueNo(counts, shards, q)
    ensures p == q
  {
    var g := TrueNo(counts, shards, p);
    TrueWithin(ranks, counts, shards, p);
    TrueWithin(ranks, counts, shards, q);
    SamePart(shards, p.rank, q.rank, g);
    SamePart(counts[p.rank], p.chunk, q.chunk, g - Before(shards, p.rank));
  }

  // ---------- when every number is given once ----------

  ghost predicate Given(ranks: seq<seq<seq<nat>>>, counts: seq<seq<nat>>, shards: seq<nat>, g: nat)
    requires RanksHave(ranks, counts, shards)
  {
    exists p :: In(p, counts) && GlobalNo(ranks, counts, shards, p) == g
  }

  ghost predicate AllGiven(ranks: seq<seq<seq<nat>>>, counts: seq<seq<nat>>, shards: seq<nat>)
    requires RanksHave(ranks, counts, shards)
  {
    forall g :: 0 <= g < Before(shards, |shards|) ==> Given(ranks, counts, shards, g)
  }

  predicate SameNo(ranks: seq<seq<seq<nat>>>, counts: seq<seq<nat>>, shards: seq<nat>, p: Place, q: Place)
    requires RanksHave(ranks, counts, shards) && In(p, counts) && In(q, counts)
  {
    GlobalNo(ranks, counts, shards, p) == GlobalNo(ranks, counts, shards, q)
  }

  /** No two layers get one number, and no number is too large. */
  ghost predicate NoneTwice(ranks: seq<seq<seq<nat>>>, counts: seq<seq<nat>>, shards: seq<nat>)
    requires RanksHave(ranks, counts, shards)
  {
    && (forall p :: In(p, counts) ==> GlobalNo(ranks, counts, shards, p) < Before(shards, |shards|))
    && (forall p, q :: In(p, counts) && In(q, counts) && SameNo(ranks, counts, shards, p, q) ==> p == q)
  }

  /** No chunk with layers comes after a chunk without any. */
  predicate NoGap(counts: seq<nat>) {
    forall j, k :: 0 <= j < k < |counts| && counts[k] > 0 ==> counts[j] > 0
  }

  predicate NoGaps(counts: seq<seq<nat>>) {
    forall r :: 0 <= r < |counts| ==> NoGap(counts[r])
  }

  /** Every place has its true number up to g, if every number is given: the place that
      has number g has no larger true number, and no smaller one. */
  lemma {:induction false} Unshifted(ranks: seq<seq<seq<nat>>>, counts: seq<seq<nat>>, shards: seq<nat>, p: Place)
    requires RanksHave(ranks, counts, shards) && AllGiven(ranks, counts, shards) && In(p, counts)
    ensures Empties(counts[p.rank], p.chunk) == 0
    decreases TrueNo(counts, shards, p)
  {
    var g := TrueNo(counts, shards, p);
    TrueWithin(ranks, counts, shards, p);
    assert Given(ranks, counts, shards, g);
    var q :| In(q, counts) && GlobalNo(ranks, counts, shards, q) == g;
    GlobalIs(ranks, counts, shards, q);
    if TrueNo(counts, shards, q) < g {
      Unshifted(ranks, counts, shards, q);
    } else {
      TrueUnique(ranks, counts, shards, p, q);
    }
  }

  lemma GapShifts(ranks: seq<seq<seq<nat>>>, counts: seq<seq<nat>>, shards: seq<nat>, r: nat)
    requires RanksHave(ranks, counts, shards) && AllGiven(ranks, counts, shards) && r < |counts|
    ensures NoGap(counts[r])
  {
    forall j, k | 0 <= j < k < |counts[r]| && counts[r][k] > 0 ensures counts[r][j] > 0 {
      Unshifted(ranks, counts, shards, Place(r, k, 0));
      NoEmptiesIff(counts[r], k);
    }
  }

  lemma TrueWithoutGaps(ranks: seq<seq<seq<nat>>>, counts: seq<seq<nat>>, shards: seq<nat>, p: Place)
    requires RanksHave(ranks, counts, shards) && NoGaps(counts) && In(p, counts)
    ensures GlobalNo(ranks, counts, shards, p) == TrueNo(counts, shards, p)
  {
    assert NoGap(counts[p.rank]);
    NoEmptiesIff(counts[p.rank], p.chunk);
    GlobalIs(ranks, counts, shards, p);
  }

  /** The ranks together give every number from 0 to the number of layers if and only
      if no rank has a chunk with layers after a chunk without; then they give each
      once, and no other. */
  lemma RanksNumberedIff(ranks: seq<seq<seq<nat>>>, counts: seq<seq<nat>>, shards: seq<nat>)
    requires RanksHave(ranks, counts, shards)
    ensures AllGiven(ranks, counts, shards) <==> NoGaps(counts)
    ensures NoGaps(counts) ==> NoneTwice(ranks, counts, shards)
  {
    if AllGiven(ranks, counts, shards) {
      forall r | 0 <= r < |counts| ensures NoGap(counts[r]) {
        GapShifts(ranks, counts, shards, r);
      }
    }
    if NoGaps(counts) {
      forall g | 0 <= g < Before(shards, |shards|) ensures Given(ranks, counts, shards, g) {
        var p := TruePlace(ranks, counts, shards, g);
        TrueWithoutGaps(ranks, counts, shards, p);
      }
      OnceWithoutGaps(ranks, counts, shards);
    }
  }

  lemma OnceWithoutGaps(ranks: seq<seq<seq<nat>>>, counts: seq<seq<nat>>, shards: seq<nat>)
    requires RanksHave(ranks, counts, shards) && NoGaps(counts)
    ensures NoneTwice(ranks, counts, shards)
  {
    forall p | In(p, counts) ensures GlobalNo(ranks, counts, shards, p) < Before(shards, |shards|) {
      TrueWithoutGaps(ranks, counts, shards, p);
      TrueWithin(ranks, counts, shards, p);
    }
    forall p, q | In(p, counts) && In(q, counts) && SameNo(ranks, counts, shards, p, q) ensures p == q {
      TrueWithoutGaps(ranks, counts, shards, p);
      TrueWithoutGaps(ranks, counts, shards, q);
      TrueUnique(ranks, counts, shards, p, q);
    }
  }

  // ---------- with the shards of the search ----------

  lemma {:induction false} BeforeIsSum(counts: seq<nat>, k: nat)
    requires k <= |counts|
    ensures Before(counts, k) == Sum(counts[..k])
  {
    if k > 0 {
      BeforeIsSum(counts, k - 1);
      assert counts[..k][..k - 1] == counts[..k - 1];
    }
  }

  predicate OneChunkEach(counts: seq<seq<nat>>) {
    forall r :: 0 <= r < |counts| ==> |counts[r]| == 1
  }

  /** With the shards that the search finds there are layerNum numbers, and ranks of one
      chunk each always number the layers 0 to layerNum - 1, each once. */
  lemma ShardsNumberLayers(layerNum: nat, ranks: seq<seq<seq<nat>>>, counts: seq<seq<nat>>, shards: seq<nat>)
    requires ClosedForm(layerNum, |ranks|) == Shards(shards) && RanksHave(ranks, counts, shards)
    ensures Before(shards, |shards|) == layerNum
    ensures OneChunkEach(counts) ==> AllGiven(ranks, counts, shards) && NoneTwice(ranks, counts, shards)
  {
    ShardsAreUniform(layerNum, |ranks|);
    BeforeIsSum(shards, |shards|);
    assert shards[..|shards|] == shards;
    if OneChunkEach(counts) {
      RanksNumberedIff(ranks, counts, shards);
    }
  }
}
