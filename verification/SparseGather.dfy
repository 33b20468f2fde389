/** The batched variable-length gather
    (verl/checkpoint_engine/delta_sync/sparse_gather.py, gather_slot_entries_to_rank0).
    Each rank contributes a blob, the concatenation of its entries for k slots, and
    the k lengths; rank 0 gets, per slot, the entries of all ranks.

    The collectives are modelled by what rank 0 receives: the matrix of lengths and
    the padded blobs of all ranks. */
module SparseGather {
  import opened Arithmetic
  import opened Sequences

  type Counts = seq<seq<nat>>  // counts[r][i], rank by slot

  function Offset(lengths: seq<nat>, i: nat): nat
    requires i <= |lengths|
  {
    if i == 0 then 0 else Offset(lengths, i - 1) + lengths[i - 1]
  }

  lemma {:induction false} OffsetMonotone(lengths: seq<nat>, i: nat, j: nat)
    requires i <= j <= |lengths|
    ensures Offset(lengths, i) <= Offset(lengths, j)
  {
    if i < j {
      OffsetMonotone(lengths, i, j - 1);
    }
  }

  predicate Matches<T>(blobs: seq<seq<T>>, counts: Counts, k: nat) {
    && |blobs| == |counts|
    && forall r :: 0 <= r < |counts| ==> |counts[r]| == k && |blobs[r]| == Offset(counts[r], k)
  }

  /** The entries of slot i in a blob. */
  function Entry<T>(blob: seq<T>, lengths: seq<nat>, i: nat): seq<T>
    requires i < |lengths| && Offset(lengths, |lengths|) <= |blob|
  {
    OffsetMonotone(lengths, i + 1, |lengths|);
    blob[Offset(lengths, i)..Offset(lengths, i + 1)]
  }

  /** What rank 0 should get for slot i: the entries of ranks 0, 1, ..., world - 1. */
  function SlotOf<T>(blobs: seq<seq<T>>, counts: Counts, k: nat, i: nat, world: nat): seq<T>
    requires Matches(blobs, counts, k) && i < k && world <= |blobs|
  {
    if world == 0 then [] else SlotOf(blobs, counts, k, i, world - 1) + Entry(blobs[world - 1], counts[world - 1], i)
  }

  predicate IsGathered<T(==)>(out: seq<seq<T>>, blobs: seq<seq<T>>, counts: Counts, k: nat)
    requires Matches(blobs, counts, k)
  {
    |out| == k && forall i :: 0 <= i < k ==> out[i] == SlotOf(blobs, counts, k, i, |blobs|)
  }

  // ---------- one padded round ----------

  /** Padded to n entries, which all ranks must send alike. */
  function Pad<T>(blob: seq<T>, n: nat, zero: T): (r: seq<T>)
    ensures |blob| <= n ==> |r| == n
    ensures blob <= r
  {
    if |blob| >= n then blob else blob + seq(n - |blob|, _ => zero)
  }

  lemma PadEntry<T>(blob: seq<T>, lengths: seq<nat>, n: nat, zero: T, i: nat)
    requires i < |lengths| && |blob| == Offset(lengths, |lengths|)
    ensures Offset(lengths, i + 1) <= |Pad(blob, n, zero)| && Offset(lengths, i) <= Offset(lengths, i + 1)
    ensures Pad(blob, n, zero)[Offset(lengths, i)..Offset(lengths, i + 1)] == Entry(blob, lengths, i)
  {
    OffsetMonotone(lengths, i, i + 1);
    OffsetMonotone(lengths, i + 1, |lengths|);
  }

  /** One round sends no more than the budget from any rank, unless it is a single slot. */
  predicate Sendable<T>(blobs: seq<seq<T>>, k: nat, budget: nat) {
    k <= 1 || forall r :: 0 <= r < |blobs| ==> |blobs[r]| <= budget
  }

  /** All blobs padded to the length of the longest, sent, and cut up again at the
      offsets that the matrix of lengths gives. */
  method GatherRound<T>(blobs: seq<seq<T>>, counts: Counts, k: nat, zero: T, ghost budget: nat)
    returns (out: seq<seq<T>>)
    requires Matches(blobs, counts, k) && Sendable(blobs, k, budget)
    ensures IsGathered(out, blobs, counts, k)
  {
    var maxN: nat := 0;
    for r := 0 to |blobs|
      invariant forall q :: 0 <= q < r ==> |blobs[q]| <= maxN
      invariant maxN == 0 || exists q :: 0 <= q < r && |blobs[q]| == maxN
    {
      if |blobs[r]| > maxN {
        maxN := |blobs[r]|;
      }
    }
    var received := seq(|blobs|, r requires 0 <= r < |blobs| => Pad(blobs[r], maxN, zero));
    assert forall r :: 0 <= r < |received| ==> |received[r]| == maxN;
    out := [];
    for i := 0 to k
      invariant |out| == i && forall j :: 0 <= j < i ==> out[j] == SlotOf(blobs, counts, k, j, |blobs|)
    {
      var pieces := [];
      for r := 0 to |blobs|
        invariant pieces == SlotOf(blobs, counts, k, i, r)
      {
        PadEntry(blobs[r], counts[r], maxN, zero, i);
        pieces := pieces + received[r][Offset(counts[r], i)..Offset(counts[r], i + 1)];
      }
      out := out + [pieces];
    }
  }

  // ---------- sub-rounds ----------

  /** Elements of slots lo..hi on one rank. */
  function Load(lengths: seq<nat>, lo: nat, hi: nat): int
    requires lo <= hi <= |lengths|
  {
    Offset(lengths, hi) - Offset(lengths, lo)
  }

  /** Slots lo..hi make one round: either a single slot or within the budget on every rank. */
  predicate WithinBudget(counts: Counts, k: nat, lo: nat, hi: nat, budget: nat)
    requires forall r :: 0 <= r < |counts| ==> |counts[r]| == k
    requires lo <= hi <= k
  {
    hi == lo + 1 || forall r :: 0 <= r < |counts| ==> Load(counts[r], lo, hi) <= budget
  }

  /** The elements that a rank may send in one round. */
  function RoundBudget(maxRoundBytes: int, perElem: nat): nat
    requires perElem > 0
  {
    if maxRoundBytes / perElem >= 1 then maxRoundBytes / perElem else 1
  }

  /** So many elements may be sent if and only if they are at most one or their bytes are
      within the bound. */
  lemma RoundBudgetIs(maxRoundBytes: int, perElem: nat, n: nat)
    requires perElem > 0
    ensures n <= RoundBudget(maxRoundBytes, perElem) <==> n <= 1 || n * perElem <= maxRoundBytes
  {
    var q, r := maxRoundBytes / perElem, maxRoundBytes % perElem;
    assert maxRoundBytes == q * perElem + r;
    if n <= q {
      Monotone(n, q, perElem);
    } else {
      Monotone(q + 1, n, perElem);
      assert (q + 1) * perElem == q * perElem + perElem;
    }
  }

  predicate CountsFor(counts: Counts, k: nat) {
    forall r :: 0 <= r < |counts| ==> |counts[r]| == k
  }

  /** A full round: not empty, within the budget, and the next slot would be too much. */
  predicate FullRound(counts: Counts, k: nat, lo: nat, hi: nat, budget: nat)
    requires CountsFor(counts, k)
  {
    lo < hi < k && WithinBudget(counts, k, lo, hi, budget) && !WithinBudget(counts, k, lo, hi + 1, budget)
  }

  predicate FullRounds(counts: Counts, k: nat, cuts: seq<nat>, budget: nat)
    requires CountsFor(counts, k)
  {
    forall j :: 0 <= j < |cuts| - 1 ==> FullRound(counts, k, cuts[j], cuts[j + 1], budget)
  }

  predicate Exceeds(run: seq<nat>, budget: nat) {
    exists r :: 0 <= r < |run| && run[r] > budget
  }

  predicate IsRun(run: seq<nat>, counts: Counts, k: nat, lo: nat, hi: nat)
    requires CountsFor(counts, k) && lo <= hi <= k
  {
    |run| == |counts| && forall r :: 0 <= r < |run| ==> run[r] == Load(counts[r], lo, hi)
  }

  lemma RunWithin(run: seq<nat>, counts: Counts, k: nat, lo: nat, hi: nat, budget: nat)
    requires CountsFor(counts, k) && lo < hi <= k && IsRun(run, counts, k, lo, hi)
    ensures WithinBudget(counts, k, lo, hi, budget) <==> hi == lo + 1 || !Exceeds(run, budget)
  {
  }

  lemma CutAppend(counts: Counts, k: nat, cuts: seq<nat>, i: nat, budget: nat)
    requires CountsFor(counts, k) && cuts != [] && FullRounds(counts, k, cuts, budget)
    requires FullRound(counts, k, cuts[|cuts| - 1], i, budget)
    ensures FullRounds(counts, k, cuts + [i], budget)
  {
  }

  /** The cuts partition the slots into consecutive non-empty rounds, each within
      the budget, and none but the last could also take the slot after it. They are
      computed from the lengths and the budget only, so every rank computes the same ones. */
  method ComputeCuts(counts: Counts, k: nat, budget: nat) returns (cuts: seq<nat>)
    requires k > 0 && CountsFor(counts, k)
    ensures |cuts| >= 2 && cuts[0] == 0 && cuts[|cuts| - 1] == k
    ensures FullRounds(counts, k, cuts[..|cuts| - 1], budget)
    ensures cuts[|cuts| - 2] < k && WithinBudget(counts, k, cuts[|cuts| - 2], k, budget)
  {
    cuts := [0];
    var run := seq(|counts|, _ => 0);
    for i := 0 to k
      invariant |cuts| >= 1 && cuts[0] == 0 && FullRounds(counts, k, cuts, budget)
      invariant cuts[|cuts| - 1] <= i && (i > 0 ==> cuts[|cuts| - 1] < i)
      invariant IsRun(run, counts, k, cuts[|cuts| - 1], i)
      invariant i > 0 ==> WithinBudget(counts, k, cuts[|cuts| - 1], i, budget)
    {
      run := seq(|counts|, r requires 0 <= r < |counts| => run[r] + counts[r][i]);
      RunWithin(run, counts, k, cuts[|cuts| - 1], i + 1, budget);
      if Exceeds(run, budget) && cuts[|cuts| - 1] != i {
        CutAppend(counts, k, cuts, i, budget);
        cuts := cuts + [i];
        run := seq(|counts|, r requires 0 <= r < |counts| => counts[r][i]);
      }
    }
    assert (cuts + [k])[..|cuts|] == cuts;
    cuts := cuts + [k];
  }

  predicate IsRound(cuts: seq<nat>, k: nat, j: nat)
    requires j < |cuts| - 1
  {
    cuts[j] < cuts[j + 1] <= k
  }

  lemma CutsIncrease(counts: Counts, k: nat, cuts: seq<nat>, budget: nat, j: nat)
    requires CountsFor(counts, k) && j < |cuts| - 1 && FullRounds(counts, k, cuts[..|cuts| - 1], budget)
    requires cuts[|cuts| - 2] < k == cuts[|cuts| - 1]
    requires WithinBudget(counts, k, cuts[|cuts| - 2], k, budget)
    ensures IsRound(cuts, k, j) && WithinBudget(counts, k, cuts[j], cuts[j + 1], budget)
  {
    var c := cuts[..|cuts| - 1];
    assert j < |c| - 1 ==> FullRound(counts, k, c[j], c[j + 1], budget);
  }

  /** What a rank passes to the round of slots lo..hi. */
  function SubBlob<T>(blob: seq<T>, lengths: seq<nat>, lo: nat, hi: nat): seq<T>
    requires lo <= hi <= |lengths| && |blob| == Offset(lengths, |lengths|)
  {
    OffsetMonotone(lengths, lo, hi);
    OffsetMonotone(lengths, hi, |lengths|);
    blob[Offset(lengths, lo)..Offset(lengths, hi)]
  }

  lemma {:induction false} SubOffset(lengths: seq<nat>, lo: nat, hi: nat, j: nat)
    requires lo <= hi <= |lengths| && j <= hi - lo
    ensures Offset(lengths[lo..hi], j) == Offset(lengths, lo + j) - Offset(lengths, lo)
  {
    if j > 0 {
      SubOffset(lengths, lo, hi, j - 1);
      assert lengths[lo..hi][j - 1] == lengths[lo + j - 1];
    }
  }

  lemma SubEntry<T>(blob: seq<T>, lengths: seq<nat>, lo: nat, hi: nat, j: nat)
    requires lo <= hi <= |lengths| && |blob| == Offset(lengths, |lengths|) && j < hi - lo
    ensures |SubBlob(blob, lengths, lo, hi)| == Offset(lengths[lo..hi], hi - lo)
    ensures Entry(SubBlob(blob, lengths, lo, hi), lengths[lo..hi], j) == Entry(blob, lengths, lo + j)
  {
    SubOffset(lengths, lo, hi, hi - lo);
    SubOffset(lengths, lo, hi, j);
    SubOffset(lengths, lo, hi, j + 1);
    OffsetMonotone(lengths, lo, lo + j);
    OffsetMonotone(lengths, lo + j, lo + j + 1);
    OffsetMonotone(lengths, lo + j + 1, hi);
    OffsetMonotone(lengths, hi, |lengths|);
    var from := Offset(lengths, lo);
    SliceOfSlice(blob, from, Offset(lengths, hi), Offset(lengths, lo + j) - from, Offset(lengths, lo + j + 1) - from);
  }

  /** The load of a round is what the rank passes to it. */
  lemma LoadIsSent<T>(blob: seq<T>, lengths: seq<nat>, lo: nat, hi: nat)
    requires lo <= hi <= |lengths| && |blob| == Offset(lengths, |lengths|)
    ensures Load(lengths, lo, hi) == |SubBlob(blob, lengths, lo, hi)|
  {
    OffsetMonotone(lengths, lo, hi);
    OffsetMonotone(lengths, hi, |lengths|);
  }

  function SubCounts(counts: Counts, k: nat, lo: nat, hi: nat): Counts
    requires lo <= hi <= k && forall r :: 0 <= r < |counts| ==> |counts[r]| == k
  {
    seq(|counts|, r requires 0 <= r < |counts| => counts[r][lo..hi])
  }

  function SubBlobs<T>(blobs: seq<seq<T>>, counts: Counts, k: nat, lo: nat, hi: nat): seq<seq<T>>
    requires lo <= hi <= k && Matches(blobs, counts, k)
  {
    seq(|blobs|, r requires 0 <= r < |blobs| => SubBlob(blobs[r], counts[r], lo, hi))
  }

  lemma {:induction false} SubSlot<T>(blobs: seq<seq<T>>, counts: Counts, k: nat, lo: nat, hi: nat, j: nat, world: nat)
    requires lo <= hi <= k && Matches(blobs, counts, k) && j < hi - lo && world <= |blobs|
    ensures Matches(SubBlobs(blobs, counts, k, lo, hi), SubCounts(counts, k, lo, hi), hi - lo)
    ensures SlotOf(SubBlobs(blobs, counts, k, lo, hi), SubCounts(counts, k, lo, hi), hi - lo, j, world)
            == SlotOf(blobs, counts, k, lo + j, world)
  {
    forall r | 0 <= r < |blobs| {
      SubEntry(blobs[r], counts[r], lo, hi, j);
    }
    if world > 0 {
      SubSlot(blobs, counts, k, lo, hi, j, world - 1);
    }
  }

  lemma RoundSendable<T>(blobs: seq<seq<T>>, counts: Counts, k: nat, lo: nat, hi: nat, budget: nat)
    requires Matches(blobs, counts, k) && lo < hi <= k && WithinBudget(counts, k, lo, hi, budget)
    ensures Sendable(SubBlobs(blobs, counts, k, lo, hi), hi - lo, budget)
    ensures lo == 0 && hi == k ==> Sendable(blobs, k, budget)
  {
    forall r | 0 <= r < |blobs| ensures |SubBlob(blobs[r], counts[r], lo, hi)| == Load(counts[r], lo, hi) {
      LoadIsSent(blobs[r], counts[r], lo, hi);
    }
  }

  /** The gather, split into rounds or not, gives rank 0 exactly what k separate
      gathers would give; no padded round of several slots exceeds the budget on any rank. */
  method GatherSlots<T>(blobs: seq<seq<T>>, counts: Counts, k: nat, maxRoundBytes: int, perElem: nat, zero: T)
    returns (out: seq<seq<T>>)
    requires Matches(blobs, counts, k) && perElem > 0
    ensures IsGathered(out, blobs, counts, k)
  {
    var budget := RoundBudget(maxRoundBytes, perElem);
    if k <= 1 {
      out := GatherRound(blobs, counts, k, zero, budget);
      return;
    }
    var cuts := ComputeCuts(counts, k, budget);
    if |cuts| <= 2 {
      RoundSendable(blobs, counts, k, 0, k, budget);
      out := GatherRound(blobs, counts, k, zero, budget);
      return;
    }
    out := [];
    for c := 0 to |cuts| - 1
      invariant |out| == cuts[c] <= k && forall i :: 0 <= i < |out| ==> out[i] == SlotOf(blobs, counts, k, i, |blobs|)
    {
      CutsIncrease(counts, k, cuts, budget, c);
      var sub := GatherPart(blobs, counts, k, cuts[c], cuts[c + 1], zero, budget);
      out := out + sub;
    }
  }

  /** The round of slots lo..hi. */
  method GatherPart<T>(blobs: seq<seq<T>>, counts: Counts, k: nat, lo: nat, hi: nat, zero: T, ghost budget: nat)
    returns (sub: seq<seq<T>>)
    requires Matches(blobs, counts, k) && lo < hi <= k && WithinBudget(counts, k, lo, hi, budget)
    ensures |sub| == hi - lo && forall j :: 0 <= j < |sub| ==> sub[j] == SlotOf(blobs, counts, k, lo + j, |blobs|)
  {
    SubSlot(blobs, counts, k, lo, hi, 0, 0);
    RoundSendable(blobs, counts, k, lo, hi, budget);
    sub := GatherRound(SubBlobs(blobs, counts, k, lo, hi), SubCounts(counts, k, lo, hi), hi - lo, zero, budget);
    forall j | 0 <= j < hi - lo ensures sub[j] == SlotOf(blobs, counts, k, lo + j, |blobs|) {
      SubSlot(blobs, counts, k, lo, hi, j, |blobs|);
    }
  }
}
