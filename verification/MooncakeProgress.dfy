/** What the Mooncake chain delivers, that it ends, and what it leaves in the slots. */
module MooncakeProgress {
  import opened Buckets
  import opened MooncakeChain
  import opened MooncakeSafety
  import opened Sequences
  import opened Wrappers

  // ---------- what is yielded ----------

  predicate Yielded(src: seq<Bucket>, r: Rank) {
    && r.idx <= |src|
    && match r.phase
       case Yield(j) => r.idx < |src| && j <= |src[r.idx].meta| && r.out == OutAt(src, Halves, r.idx + 1, j)
       case Signal => r.idx < |src| && r.out == UnpackAll(src[..r.idx + 1], Halves)
       case _ => r.out == UnpackAll(src[..r.idx], Halves)
  }

  lemma YieldedStep(src: seq<Bucket>, hasNext: bool, r: Rank, inbox: seq<Info>, slots: Flags, prev: Cells)
    requires RankInv(src, false, hasNext, r) && Yielded(src, r)
    requires Local(src, hasNext, r, inbox, slots, prev).Some?
    ensures Yielded(src, Local(src, hasNext, r, inbox, slots, prev).value.rank)
  {
    if r.phase.Yield? {
      YieldedNext(src, hasNext, r, inbox, slots, prev);
    } else if r.phase.Forward? {
      OutAtNext(src, Halves, r.idx + 1, 0);
    }
  }

  lemma YieldedNext(src: seq<Bucket>, hasNext: bool, r: Rank, inbox: seq<Info>, slots: Flags, prev: Cells)
    requires RankInv(src, false, hasNext, r) && Yielded(src, r) && r.phase.Yield?
    requires Local(src, hasNext, r, inbox, slots, prev).Some?
    ensures Yielded(src, Local(src, hasNext, r, inbox, slots, prev).value.rank)
  {
    OutAtNext(src, Halves, r.idx + 1, r.phase.next);
    HalfStartIs(src, r.idx);
  }

  /** Bucket k lies in half k % 2. */
  lemma HalfStartIs(src: seq<Bucket>, k: nat)
    requires k < |src|
    ensures BaseAt(src, Halves, k) == HalfStart(k % 2, |src[k].bytes|)
  {
  }

  predicate AllYielded(src: seq<Bucket>, s: Chain) {
    forall i :: 0 < i < |s.ranks| ==> Yielded(src, s.ranks[i])
  }

  lemma {:induction false} ExecYielded(src: seq<Bucket>, left: seq<Flags>, s: Chain, schedule: seq<nat>)
    requires LastFlagged(src) && AllHarmless(src, left) && Inv(src, left, s) && AllYielded(src, s)
    requires Exec(src, s, schedule).Some?
    ensures AllYielded(src, Exec(src, s, schedule).value)
    decreases schedule
  {
    if schedule != [] {
      var i := schedule[0];
      var s' := Step(src, s, i).value;
      StepInv(src, left, s, i);
      if i > 0 {
        assert RankInv(src, false, i < |s.ranks| - 1, s.ranks[i]) && Yielded(src, s.ranks[i]);
        YieldedStep(src, i < |s.ranks| - 1, s.ranks[i], Inbox(s, i), s.slots[i], Prev(s, i));
      }
      forall k | 0 < k < |s'.ranks| ensures Yielded(src, s'.ranks[k]) {
        assert Yielded(src, s.ranks[k]);
      }
      ExecYielded(src, left, s', schedule[1..]);
    }
  }

  lemma InitYielded(src: seq<Bucket>, left: seq<Flags>)
    requires |left| >= 2
    ensures AllYielded(src, Init(left))
  {
    assert src[..0] == [];
    forall k | 0 < k < |Init(left).ranks| ensures Yielded(src, Init(left).ranks[k]) {
      assert Init(left).ranks[k] == InitRank(false);
    }
  }

  lemma YieldedIsPrefix(src: seq<Bucket>, r: Rank)
    requires Yielded(src, r)
    ensures r.out <= UnpackAll(src, Halves)
  {
    UnpackAllPrefix(src, Halves, r.idx);
    if r.idx < |src| {
      UnpackAllPrefix(src, Halves, r.idx + 1);
      if r.phase.Yield? {
        ViewsPrefixOf(src[r.idx], BaseAt(src, Halves, r.idx), r.phase.next);
        UnpackPrefix(src, Halves, r.idx);
      }
    }
  }

  /** Every rank yields the sender's tensors in order, and all of them once it is done. */
  lemma YieldsInOrder(src: seq<Bucket>, left: seq<Flags>, s: Chain, i: nat)
    requires LastFlagged(src) && AllHarmless(src, left) && Reachable(src, left, s) && 0 < i < |s.ranks|
    ensures s.ranks[i].out <= UnpackAll(src, Halves)
    ensures s.ranks[i].phase == Done ==> s.ranks[i].out == UnpackAll(src, Halves)
  {
    ReachableInv(src, left, s);
    var schedule :| Exec(src, Init(left), schedule) == Some(s);
    InitInv(src, left);
    InitYielded(src, left);
    ExecYielded(src, left, Init(left), schedule);
    YieldedIsPrefix(src, s.ranks[i]);
    assert RankInv(src, false, i < |s.ranks| - 1, s.ranks[i]) && src[..|src|] == src;
  }

  // ---------- stale signals ----------

  /** A harmless stale signal stays in its slot, unless the last wait of rank 0 takes it. */
  predicate StaleInv(first: bool, left: Flags, a: Rank, slots: Flags) {
    forall h: Half :: left[h] ==> slots[h] || (first && a.phase.Done? && h == a.Current())
  }

  predicate StaleAt(left: seq<Flags>, s: Chain, i: nat)
    requires |left| == |s.ranks| == |s.slots| && i < |left|
  {
    StaleInv(i == 0, left[i], s.ranks[i], s.slots[i])
  }

  /** ... and nobody touches the slots of the last rank. */
  predicate AllStale(left: seq<Flags>, s: Chain) {
    && Shape(s) && |left| == |s.ranks|
    && (forall i :: 0 <= i < |s.msgs| ==> StaleAt(left, s, i))
    && s.slots[|s.ranks| - 1] == left[|s.ranks| - 1]
  }

  lemma StaleStays(src: seq<Bucket>, first: bool, left: Flags, a: Rank, slots: Flags, inbox: seq<Info>, prev: Cells)
    requires RankInv(src, first, true, a) && Harmless(src, left) && StaleInv(first, left, a, slots)
    requires Local(src, true, a, inbox, slots, prev).Some?
    ensures var e := Local(src, true, a, inbox, slots, prev).value;
            StaleInv(first, left, e.rank, SetFlag(slots, e.clear, false))
  {
  }

  lemma SignalKeeps(first: bool, left: Flags, a: Rank, slots: Flags, h: Option<Half>)
    requires StaleInv(first, left, a, slots)
    ensures StaleInv(first, left, a, SetFlag(slots, h, true))
  {
  }

  lemma LastClearsNothing(src: seq<Bucket>, r: Rank, inbox: seq<Info>, slots: Flags, prev: Cells)
    requires RankInv(src, false, false, r) && Local(src, false, r, inbox, slots, prev).Some?
    ensures Local(src, false, r, inbox, slots, prev).value.clear == None
  {
  }

  lemma StepStale(src: seq<Bucket>, left: seq<Flags>, s: Chain, i: nat)
    requires Inv(src, left, s) && AllHarmless(src, left) && AllStale(left, s) && Step(src, s, i).Some?
    ensures AllStale(left, Step(src, s, i).value)
  {
    var e, n := LocalAt(src, s, i).value, |s.ranks|;
    var s' := Step(src, s, i).value;
    assert RankInv(src, i == 0, i < n - 1, s.ranks[i]);
    forall k | 0 <= k < |s.msgs| ensures StaleAt(left, s', k) {
      assert StaleAt(left, s, k) && Harmless(src, left[k]);
      if k == i {
        StaleStays(src, i == 0, left[i], s.ranks[i], s.slots[i], Inbox(s, i), Prev(s, i));
      } else if k + 1 == i {
        SignalKeeps(k == 0, left[k], s.ranks[k], s.slots[k], e.signal);
      }
    }
    if i == n - 1 {
      LastClearsNothing(src, s.ranks[i], Inbox(s, i), s.slots[i], Prev(s, i));
    }
  }

  lemma {:induction false} ExecStale(src: seq<Bucket>, left: seq<Flags>, s: Chain, schedule: seq<nat>)
    requires LastFlagged(src) && Inv(src, left, s) && AllHarmless(src, left) && AllStale(left, s)
    requires Exec(src, s, schedule).Some?
    ensures AllStale(left, Exec(src, s, schedule).value)
    decreases schedule
  {
    if schedule != [] {
      StepInv(src, left, s, schedule[0]);
      StepStale(src, left, s, schedule[0]);
      ExecStale(src, left, Step(src, s, schedule[0]).value, schedule[1..]);
    }
  }

  lemma ReachableStale(src: seq<Bucket>, left: seq<Flags>, s: Chain)
    requires LastFlagged(src) && AllHarmless(src, left) && Reachable(src, left, s)
    ensures AllStale(left, s)
  {
    var schedule :| Exec(src, Init(left), schedule) == Some(s);
    InitInv(src, left);
    ExecStale(src, left, Init(left), schedule);
  }

  // ---------- no deadlock ----------

  ghost predicate Stuck(src: seq<Bucket>, s: Chain) {
    forall i :: Step(src, s, i).None?
  }

  predicate WaitsForSignal(r: Rank) {
    r.phase.Reuse? || r.phase.Drain? || r.phase.Credit?
  }

  /** A rank only waits in vain on a slot that held no stale signal. */
  lemma WaitsOnClearSlot(src: seq<Bucket>, first: bool, left: Flags, a: Rank, slots: Flags)
    requires RankInv(src, first, true, a) && Harmless(src, left) && StaleInv(first, left, a, slots)
    requires WaitsForSignal(a) && !slots[a.Current()]
    ensures !left[a.Current()]
  {
  }

  /** A successor that has not signalled and does not itself wait for a signal can step. */
  lemma SuccessorCanStep(src: seq<Bucket>, first: bool, left: Flags, a: Rank, b: Rank, msgs: seq<Info>, slots: Flags,
                         hasNext: bool, slotsOfB: Flags)
    requires LastFlagged(src) && RankInv(src, first, true, a) && RankInv(src, false, hasNext, b)
    requires LinkInv(src, first, left, a, b, msgs, slots) && !left[a.Current()]
    requires WaitsForSignal(a) && !slots[a.Current()] && !WaitsForSignal(b)
    ensures Local(src, hasNext, b, msgs, slotsOfB, a.bufs).Some?
  {
  }

  lemma {:induction false} NobodyWaitsForSignal(src: seq<Bucket>, left: seq<Flags>, s: Chain, i: nat)
    requires LastFlagged(src) && AllHarmless(src, left) && Inv(src, left, s) && AllStale(left, s) && Stuck(src, s)
    requires i < |s.ranks|
    ensures !WaitsForSignal(s.ranks[i])
    decreases |s.ranks| - i
  {
    var r, n := s.ranks[i], |s.ranks|;
    assert RankInv(src, i == 0, i < n - 1, r);
    if WaitsForSignal(r) {
      NobodyWaitsForSignal(src, left, s, i + 1);
      assert LinkAt(src, left, s, i) && Harmless(src, left[i]) && StaleAt(left, s, i);
      assert RankInv(src, false, i + 1 < n - 1, s.ranks[i + 1]);
      assert Step(src, s, i).None? && Step(src, s, i + 1).None?;
      WaitsOnClearSlot(src, i == 0, left[i], r, s.slots[i]);
      SuccessorCanStep(src, i == 0, left[i], r, s.ranks[i + 1], s.msgs[i], s.slots[i], i + 1 < n - 1, s.slots[i + 1]);
    }
  }

  lemma {:induction false} EverybodyDone(src: seq<Bucket>, left: seq<Flags>, s: Chain, i: nat)
    requires LastFlagged(src) && AllHarmless(src, left) && Inv(src, left, s) && AllStale(left, s) && Stuck(src, s)
    requires i < |s.ranks|
    ensures s.ranks[i].phase == Done
  {
    assert RankInv(src, i == 0, i < |s.ranks| - 1, s.ranks[i]) && Step(src, s, i).None?;
    NobodyWaitsForSignal(src, left, s, i);
    if i > 0 {
      EverybodyDone(src, left, s, i - 1);
      assert LinkAt(src, left, s, i - 1) && RankInv(src, i - 1 == 0, true, s.ranks[i - 1]);
    }
  }

  /** No deadlock: when nothing more can happen every rank is done and has yielded everything. */
  lemma StuckOnlyWhenDone(src: seq<Bucket>, left: seq<Flags>, s: Chain)
    requires LastFlagged(src) && AllHarmless(src, left) && Reachable(src, left, s) && Stuck(src, s)
    ensures Shape(s) && |s.ranks| == |left|
    ensures forall i :: 0 <= i < |s.ranks| ==> s.ranks[i].phase == Done
    ensures forall i :: 0 < i < |s.ranks| ==> s.ranks[i].out == UnpackAll(src, Halves)
  {
    ReachableInv(src, left, s);
    ReachableStale(src, left, s);
    forall i | 0 <= i < |s.ranks| ensures s.ranks[i].phase == Done {
      EverybodyDone(src, left, s, i);
    }
    forall i | 0 < i < |s.ranks| ensures s.ranks[i].out == UnpackAll(src, Halves) {
      YieldsInOrder(src, left, s, i);
    }
  }

  // ---------- what is left in the slots ----------

  /** What a synchronisation of m buckets leaves in slots that it found clear: the
      sender has not waited for the last bucket but one, the other ranks not for the
      last two. */
  function LeftOver(first: bool, m: nat): Flags {
    if first then [m >= 2 && m % 2 == 0, m >= 2 && m % 2 == 1] else [m >= 1, m >= 2]
  }

  /** A slot found clear gets what is left over. A stale signal stays; if rank 0's last
      wait takes it, the signal of the last bucket is left or not, depending on which
      came first. */
  predicate LeavesIn(first: bool, found: Flags, m: nat, leaves: Flags, h: Half) {
    if found[h] then leaves[h] || (first && h == (m + 1) % 2) else leaves[h] == LeftOver(first, m)[h]
  }

  predicate LeavesAt(first: bool, found: Flags, m: nat, leaves: Flags) {
    LeavesIn(first, found, m, leaves, 0) && LeavesIn(first, found, m, leaves, 1)
  }

  predicate LeavesBehind(found: seq<Flags>, m: nat, leaves: seq<Flags>) {
    && |leaves| == |found| >= 2 && leaves[|found| - 1] == found[|found| - 1]
    && forall i :: 0 <= i < |found| - 1 ==> LeavesAt(i == 0, found[i], m, leaves[i])
  }

  predicate Finished(s: Chain) {
    forall i :: 0 <= i < |s.ranks| ==> s.ranks[i].phase == Done
  }

  lemma LinkLeaves(src: seq<Bucket>, first: bool, left: Flags, a: Rank, b: Rank, hasNext: bool, msgs: seq<Info>,
                   slots: Flags)
    requires LastFlagged(src) && RankInv(src, first, true, a) && RankInv(src, false, hasNext, b)
    requires LinkInv(src, first, left, a, b, msgs, slots) && StaleInv(first, left, a, slots)
    requires a.phase == Done && b.phase == Done
    ensures LeavesAt(first, left, |src|, slots)
  {
    assert b.idx == |src|;
    if first {
      assert a.idx == |src| - 1;
    }
  }

  /** The slots after a finished synchronisation that found only harmless signals. */
  lemma FinishedLeaves(src: seq<Bucket>, left: seq<Flags>, s: Chain)
    requires LastFlagged(src) && AllHarmless(src, left) && Reachable(src, left, s) && Finished(s)
    ensures LeavesBehind(left, |src|, s.slots)
  {
    ReachableInv(src, left, s);
    ReachableStale(src, left, s);
    var n := |s.ranks|;
    forall i | 0 <= i < n - 1 ensures LeavesAt(i == 0, left[i], |src|, s.slots[i]) {
      assert LinkAt(src, left, s, i) && StaleAt(left, s, i);
      assert RankInv(src, i == 0, i < n - 1, s.ranks[i]) && RankInv(src, i + 1 == 0, i + 1 < n - 1, s.ranks[i + 1]);
      LinkLeaves(src, i == 0, left[i], s.ranks[i], s.ranks[i + 1], i + 1 < n - 1, s.msgs[i], s.slots[i]);
    }
  }

  // ---------- every run ends ----------

  function Remaining(src: seq<Bucket>, k: nat): nat
    decreases |src| - k
  {
    if k >= |src| then 0 else |src[k].meta| + 10 + Remaining(src, k + 1)
  }

  function Work(src: seq<Bucket>, first: bool, r: Rank): int {
    match r.phase
    case Fill => 4 * (|src| - r.idx) + 2
    case Send => 4 * (|src| - r.idx) + 1
    case Reuse => 4 * (|src| - r.idx) + 3
    case Drain => 1
    case Recv => Remaining(src, r.idx)
    case Credit => Remaining(src, r.idx) - 1
    case Read => Remaining(src, r.idx) - 2
    case Reading => Remaining(src, r.idx) - 3
    case Forward => Remaining(src, r.idx) - 4
    case Yield(j) => Remaining(src, r.idx) - 5 - j
    case Signal => Remaining(src, r.idx + 1) + 1
    case _ => 0
  }

  function TotalWork(src: seq<Bucket>, ranks: seq<Rank>): int {
    Sum(seq(|ranks|, i requires 0 <= i < |ranks| => Work(src, i == 0, ranks[i])))
  }

  lemma FirstWork(src: seq<Bucket>, r: Rank, inbox: seq<Info>, slots: Flags, prev: Cells)
    requires LastFlagged(src) && FirstRank(src, r)
    requires Local(src, true, r, inbox, slots, prev).Some?
    ensures 0 <= Work(src, true, Local(src, true, r, inbox, slots, prev).value.rank) < Work(src, true, r)
  {
  }

  lemma OtherWork(src: seq<Bucket>, hasNext: bool, r: Rank, inbox: seq<Info>, slots: Flags, prev: Cells)
    requires LastFlagged(src) && OtherRank(src, hasNext, r)
    requires Local(src, hasNext, r, inbox, slots, prev).Some?
    ensures 0 <= Work(src, false, Local(src, hasNext, r, inbox, slots, prev).value.rank) < Work(src, false, r)
  {
  }

  lemma LocalWork(src: seq<Bucket>, first: bool, hasNext: bool, r: Rank, inbox: seq<Info>, slots: Flags, prev: Cells)
    requires LastFlagged(src) && RankInv(src, first, hasNext, r)
    requires Local(src, hasNext, r, inbox, slots, prev).Some?
    ensures 0 <= Work(src, first, Local(src, hasNext, r, inbox, slots, prev).value.rank) < Work(src, first, r)
  {
    if first {
      FirstWork(src, r, inbox, slots, prev);
    } else {
      OtherWork(src, hasNext, r, inbox, slots, prev);
    }
  }

  lemma StepWork(src: seq<Bucket>, left: seq<Flags>, s: Chain, i: nat)
    requires LastFlagged(src) && Inv(src, left, s) && Step(src, s, i).Some?
    ensures TotalWork(src, Step(src, s, i).value.ranks) < TotalWork(src, s.ranks)
  {
    var ranks, r' := s.ranks, Step(src, s, i).value.ranks[i];
    assert RankInv(src, i == 0, i < |ranks| - 1, ranks[i]);
    LocalWork(src, i == 0, i < |ranks| - 1, ranks[i], Inbox(s, i), s.slots[i], Prev(s, i));
    var ranks' := ranks[i := r'];
    assert Step(src, s, i).value.ranks == ranks';
    var works := seq(|ranks|, k requires 0 <= k < |ranks| => Work(src, k == 0, ranks[k]));
    SumUpdate(works, i, Work(src, i == 0, r'));
    assert works[i := Work(src, i == 0, r')]
        == seq(|ranks'|, k requires 0 <= k < |ranks'| => Work(src, k == 0, ranks'[k]));
  }

  lemma WorkNonNegative(src: seq<Bucket>, left: seq<Flags>, s: Chain)
    requires LastFlagged(src) && Inv(src, left, s)
    ensures TotalWork(src, s.ranks) >= 0
  {
    var ranks := s.ranks;
    forall i | 0 <= i < |ranks| ensures Work(src, i == 0, ranks[i]) >= 0 {
      assert RankInv(src, i == 0, i < |ranks| - 1, ranks[i]);
    }
    SumNonNegative(seq(|ranks|, i requires 0 <= i < |ranks| => Work(src, i == 0, ranks[i])));
  }

  lemma {:induction false} ExecWork(src: seq<Bucket>, left: seq<Flags>, s: Chain, schedule: seq<nat>)
    requires LastFlagged(src) && AllHarmless(src, left) && Inv(src, left, s) && Exec(src, s, schedule).Some?
    ensures |schedule| <= TotalWork(src, s.ranks)
    decreases schedule
  {
    if schedule == [] {
      WorkNonNegative(src, left, s);
    } else {
      StepInv(src, left, s, schedule[0]);
      StepWork(src, left, s, schedule[0]);
      ExecWork(src, left, Step(src, s, schedule[0]).value, schedule[1..]);
    }
  }

  lemma {:induction false} EveryRunEnds(src: seq<Bucket>, left: seq<Flags>, schedule: seq<nat>)
    requires LastFlagged(src) && |left| >= 2 && AllHarmless(src, left) && Exec(src, Init(left), schedule).Some?
    ensures |schedule| <= TotalWork(src, Init(left).ranks)
  {
    InitInv(src, left);
    ExecWork(src, left, Init(left), schedule);
  }
}
