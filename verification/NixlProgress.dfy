/** Every run of the NIXL chain ends, with all ranks done. */
module NixlProgress {
  import opened Buckets
  import opened NixlChain
  import opened NixlSafety
  import opened Sequences
  import opened WeightChunks
  import opened Wrappers

  predicate Enabled(src: seq<Bucket>, s: Chain, a: Action) {
    Step(src, s, a).Some?
  }

  ghost predicate Stuck(src: seq<Bucket>, s: Chain) {
    forall a :: !Enabled(src, s, a)
  }

  predicate WaitsForAck(r: Rank) {
    r.op.Some? && (r.phase.Settle? || r.phase.Drain? || r.phase.AwaitAck?)
  }

  // ---------- no deadlock ----------

  /** A successor that has not read the exposed bucket, and does not itself wait
      for a notification, can step. */
  lemma SuccessorCanStep(src: seq<Bucket>, first: bool, hasNext: bool, a: Rank, b: Rank,
                         msgs: seq<Message>, acks: seq<nat>, acksOfB: seq<nat>)
    requires LastFlagged(src) && RankInv(src, false, hasNext, b) && LinkInv(src, first, a, b, msgs, acks)
    requires a.op.Some? && acks == [] && !WaitsForAck(b) && !b.read.InFlight?
    ensures Local(src, hasNext, b, msgs, acksOfB).Some?
  {
  }

  /** In a stuck state no rank waits for its successor: the last rank has none, and
      a successor that has not read is itself waiting for its own successor. */
  lemma {:induction false} NobodyWaitsForAck(src: seq<Bucket>, s: Chain, i: nat)
    requires LastFlagged(src) && Inv(src, s) && Stuck(src, s) && i < |s.ranks|
    ensures !WaitsForAck(s.ranks[i])
    decreases |s.ranks| - i
  {
    var r, n := s.ranks[i], |s.ranks|;
    assert RankInv(src, i == 0, i < n - 1, r);
    if WaitsForAck(r) {
      QueuesAt(src, s, i);
      assert !Enabled(src, s, Advance(i)) && !Enabled(src, s, Transfer(i + 1)) && !Enabled(src, s, Advance(i + 1));
      NobodyWaitsForAck(src, s, i + 1);
      assert LinkAt(src, s, i);
      SuccessorCanStep(src, i == 0, i + 1 < n - 1, r, s.ranks[i + 1], s.msgs[i], s.acks[i], Acks(s, i + 1));
    }
  }

  lemma {:induction false} EverybodyDone(src: seq<Bucket>, s: Chain, i: nat)
    requires LastFlagged(src) && Inv(src, s) && Stuck(src, s) && i < |s.ranks|
    ensures s.ranks[i].phase == Done
  {
    var r := s.ranks[i];
    assert RankInv(src, i == 0, i < |s.ranks| - 1, r);
    NobodyWaitsForAck(src, s, i);
    assert !Enabled(src, s, Advance(i)) && !Enabled(src, s, Transfer(i));
    if i > 0 {
      EverybodyDone(src, s, i - 1);
      assert RankInv(src, i - 1 == 0, true, s.ranks[i - 1]);
      assert LinkAt(src, s, i - 1);
    }
  }

  /** No deadlock: a reachable state in which no action is possible is final, and
      every rank has then yielded all of rank 0's chunks. */
  lemma StuckOnlyWhenDone(src: seq<Bucket>, receivers: nat, s: Chain)
    requires LastFlagged(src) && receivers >= 1 && Reachable(src, receivers, s) && Stuck(src, s)
    ensures |s.ranks| == receivers + 1
    ensures forall i :: 0 <= i <= receivers ==> s.ranks[i].phase == Done
    ensures forall i :: 0 < i <= receivers ==> s.ranks[i].out == UnpackAll(src, Separate)
  {
    ReachableInv(src, receivers, s);
    forall i | 0 <= i <= receivers
      ensures s.ranks[i].phase == Done && (i > 0 ==> s.ranks[i].out == UnpackAll(src, Separate))
    {
      EverybodyDone(src, s, i);
      if i > 0 {
        YieldsInOrder(src, receivers, s, i);
      }
    }
  }

  // ---------- every run ends ----------

  /** A bound on the work left for the buckets from k on. */
  function Remaining(src: seq<Bucket>, k: nat): nat
    decreases |src| - k
  {
    if k >= |src| then 0 else |src[k].meta| + 8 + Remaining(src, k + 1)
  }

  function FirstWork(src: seq<Bucket>, r: Rank): int {
    match r.phase
    case Fill => 3 * (|src| - r.exposed) + 2
    case Settle => 3 * (|src| - r.exposed) + 1
    case Expose => 3 * (|src| - r.exposed)
    case Drain => 1
    case _ => 0
  }

  function OtherWork(src: seq<Bucket>, r: Rank): int {
    var g := Installed(r);
    var flight := if r.read.InFlight? then 1 else 0;
    if g < 0 then 0 else
      var current := if 0 < g <= |src| then |src[g - 1].meta| else 0;
      match r.phase
      case Serve => Remaining(src, g) + current + 7
      case AwaitMeta => Remaining(src, g) + current + 6
      case Yield(j) => Remaining(src, g) + current - j + 3 + flight
      case AwaitAck => Remaining(src, g) + 2 + flight
      case AwaitRead => Remaining(src, g) + 1 + flight
      case _ => 0
  }

  function Work(src: seq<Bucket>, first: bool, r: Rank): int {
    if first then FirstWork(src, r) else OtherWork(src, r)
  }

  function TotalWork(src: seq<Bucket>, ranks: seq<Rank>): int {
    Sum(seq(|ranks|, i requires 0 <= i < |ranks| => Work(src, i == 0, ranks[i])))
  }

  lemma TotalWorkUpdate(src: seq<Bucket>, ranks: seq<Rank>, i: nat, r: Rank)
    requires i < |ranks|
    ensures TotalWork(src, ranks[i := r]) == TotalWork(src, ranks) - Work(src, i == 0, ranks[i]) + Work(src, i == 0, r)
  {
    var works := seq(|ranks|, k requires 0 <= k < |ranks| => Work(src, k == 0, ranks[k]));
    var ranks' := ranks[i := r];
    SumUpdate(works, i, Work(src, i == 0, r));
    assert works[i := Work(src, i == 0, r)]
        == seq(|ranks'|, k requires 0 <= k < |ranks'| => Work(src, k == 0, ranks'[k]));
  }

  lemma TotalWorkPositive(src: seq<Bucket>, s: Chain)
    requires Inv(src, s)
    ensures TotalWork(src, s.ranks) >= 0
  {
    var ranks := s.ranks;
    forall i | 0 <= i < |ranks| ensures Work(src, i == 0, ranks[i]) >= 0 {
      assert RankInv(src, i == 0, i < |ranks| - 1, ranks[i]);
    }
    SumNonNegative(seq(|ranks|, i requires 0 <= i < |ranks| => Work(src, i == 0, ranks[i])));
  }

  lemma LocalWork(src: seq<Bucket>, first: bool, hasNext: bool, r: Rank, inbox: seq<Message>, acks: seq<nat>)
    requires LastFlagged(src) && RankInv(src, first, hasNext, r)
    requires first ==> inbox == []
    requires acks != [] ==> r.op.Some? && acks[0] == r.op.value
    requires Local(src, hasNext, r, inbox, acks).Some?
    ensures Work(src, first, Local(src, hasNext, r, inbox, acks).value.rank) < Work(src, first, r)
  {
  }

  lemma StepWork(src: seq<Bucket>, s: Chain, a: Action)
    requires LastFlagged(src) && Inv(src, s) && Enabled(src, s, a)
    ensures TotalWork(src, Step(src, s, a).value.ranks) < TotalWork(src, s.ranks)
  {
    var i := a.rank;
    var r, r' := s.ranks[i], Step(src, s, a).value.ranks[i];
    assert Step(src, s, a).value.ranks == s.ranks[i := r'];
    assert RankInv(src, i == 0, i < |s.ranks| - 1, r);
    assert Work(src, i == 0, r') < Work(src, i == 0, r) by {
      if a.Advance? {
        QueuesAt(src, s, i);
        LocalWork(src, i == 0, i < |s.ranks| - 1, r, Inbox(s, i), Acks(s, i));
      }
    }
    TotalWorkUpdate(src, s.ranks, i, r');
  }

  lemma {:induction false} ExecWork(src: seq<Bucket>, s: Chain, schedule: seq<Action>)
    requires LastFlagged(src) && Inv(src, s) && Exec(src, s, schedule).Some?
    ensures |schedule| <= TotalWork(src, s.ranks)
    decreases schedule
  {
    if schedule == [] {
      TotalWorkPositive(src, s);
    } else {
      StepInv(src, s, schedule[0]);
      StepWork(src, s, schedule[0]);
      ExecWork(src, Step(src, s, schedule[0]).value, schedule[1..]);
    }
  }

  /** No schedule, fair or not, is longer than the initial work. */
  lemma {:induction false} EveryRunEnds(src: seq<Bucket>, receivers: nat, schedule: seq<Action>)
    requires LastFlagged(src) && receivers >= 1 && Exec(src, Init(receivers), schedule).Some?
    ensures |schedule| <= TotalWork(src, Init(receivers).ranks)
  {
    InitInv(src, receivers);
    ExecWork(src, Init(receivers), schedule);
  }

  lemma {:induction false} ExecThen(src: seq<Bucket>, s: Chain, schedule: seq<Action>, a: Action)
    requires Exec(src, s, schedule).Some?
    ensures Exec(src, s, schedule + [a]) == Step(src, Exec(src, s, schedule).value, a)
    decreases schedule
  {
    if schedule == [] {
      assert schedule + [a] == [a];
    } else {
      assert (schedule + [a])[1..] == schedule[1..] + [a];
      ExecThen(src, Step(src, s, schedule[0]).value, schedule[1..], a);
    }
  }

  /** Every schedule can be continued until all ranks are done. */
  lemma {:induction false} CanFinish(src: seq<Bucket>, receivers: nat, schedule: seq<Action>)
    returns (full: seq<Action>)
    requires LastFlagged(src) && receivers >= 1 && Exec(src, Init(receivers), schedule).Some?
    ensures schedule <= full && Exec(src, Init(receivers), full).Some?
    ensures var s := Exec(src, Init(receivers), full).value;
            && |s.ranks| == receivers + 1
            && (forall i :: 0 <= i <= receivers ==> s.ranks[i].phase == Done)
            && (forall i :: 0 < i <= receivers ==> s.ranks[i].out == UnpackAll(src, Separate))
    decreases TotalWork(src, Init(receivers).ranks) - |schedule|
  {
    var s := Exec(src, Init(receivers), schedule).value;
    EveryRunEnds(src, receivers, schedule);
    if Stuck(src, s) {
      StuckOnlyWhenDone(src, receivers, s);
      full := schedule;
    } else {
      var a :| Enabled(src, s, a);
      ExecThen(src, Init(receivers), schedule, a);
      EveryRunEnds(src, receivers, schedule + [a]);
      full := CanFinish(src, receivers, schedule + [a]);
    }
  }

  /** The whole synchronisation: whatever the interleaving, when nothing more can
      happen every rollout rank has merged exactly the trainer's tensors that have
      bytes, in order, if and only if every unsplit one lies at a multiple of its item
      size in its bucket; otherwise its merge fails at a view. */
  lemma ChainDelivers(weights: seq<Named>, bucketSize: nat, src: seq<Bucket>, receivers: nat, s: Chain, i: nat)
    requires bucketSize > 0 && AllValid(weights)
    requires LastFlagged(src) && Carries(src, Pack(Split(weights, bucketSize), bucketSize), bucketSize)
    requires receivers >= 1 && Reachable(src, receivers, s) && Stuck(src, s) && 0 < i <= receivers
    ensures |s.ranks| == receivers + 1 && s.ranks[i].phase == Done
    ensures Delivers(Merge(s.ranks[i].out, bucketSize), weights, bucketSize)
  {
    StuckOnlyWhenDone(src, receivers, s);
    WireDelivers(weights, bucketSize, src);
  }

  /** While the tensors are viewable no rank's merge has failed at any moment of any
      interleaving, so no rank stops early. */
  lemma NoMergeFails(weights: seq<Named>, bucketSize: nat, src: seq<Bucket>, receivers: nat, s: Chain, i: nat)
    requires bucketSize > 0 && AllValid(weights) && Viewable(weights, bucketSize)
    requires LastFlagged(src) && Carries(src, Pack(Split(weights, bucketSize), bucketSize), bucketSize)
    requires receivers >= 1 && Reachable(src, receivers, s) && 0 < i <= receivers
    ensures |s.ranks| == receivers + 1
    ensures var m := Merge(s.ranks[i].out, bucketSize); m.failure == None && m.yielded <= NonEmpty(weights)
  {
    YieldsInOrder(src, receivers, s, i);
    WireDelivers(weights, bucketSize, src);
    var out, all := s.ranks[i].out, UnpackAll(src, Separate);
    assert out == all[..|out|];
    MergePrefix(Idle, all, |out|, bucketSize);
  }
}
