/** Synchronisations one after the other over the same Mooncake engines: the slots are
    cleared only when the engines are made. */
module MooncakeSessions {
  import opened Buckets
  import opened MooncakeChain
  import opened MooncakeProgress
  import opened MooncakeSafety
  import opened MooncakeStale
  import opened Wrappers

  // ---------- finished runs ----------

  /** From harmless slots, every run can be continued until all ranks are done. */
  lemma {:induction false} CanFinish(src: seq<Bucket>, left: seq<Flags>, s: Chain) returns (done: Chain)
    requires LastFlagged(src) && AllHarmless(src, left) && Reachable(src, left, s)
    ensures Reaches(src, s, done) && Reachable(src, left, done) && Finished(done)
    decreases TotalWork(src, s.ranks)
  {
    ReachesSelf(src, s);
    done := s;
    if i :| Step(src, s, i).Some? {
      var next := Step(src, s, i).value;
      ReachableInv(src, left, s);
      ReachesStep(src, s, i);
      ReachableThen(src, left, s, next);
      StepWork(src, left, s, i);
      WorkLeft(src, left, s);
      done := CanFinish(src, left, next);
      ReachesThen(src, s, next, done);
    } else {
      StuckOnlyWhenDone(src, left, s);
    }
  }

  lemma ReachableThen(src: seq<Bucket>, left: seq<Flags>, s: Chain, s': Chain)
    requires Reachable(src, left, s) && Reaches(src, s, s')
    ensures Reachable(src, left, s')
  {
    assert Reaches(src, Init(left), s);
    ReachesThen(src, Init(left), s, s');
  }

  lemma WorkLeft(src: seq<Bucket>, left: seq<Flags>, s: Chain)
    requires LastFlagged(src) && AllHarmless(src, left) && Reachable(src, left, s)
    ensures TotalWork(src, s.ranks) >= 0
  {
    ReachableInv(src, left, s);
    WorkNonNegative(src, left, s);
  }

  // ---------- a stale signal that survives ----------

  /** Rank 0 is done, and the signal of the last bucket, if it was written, is still there. */
  predicate LateSignal(src: seq<Bucket>, s: Chain) {
    && Shape(s) && src != [] && s.ranks[0].phase == Done
    && (s.ranks[1].idx == |src| ==> s.slots[0][(|src| + 1) % 2])
  }

  lemma StepLate(src: seq<Bucket>, left: seq<Flags>, s: Chain, i: nat)
    requires LastFlagged(src) && Inv(src, left, s) && LateSignal(src, s) && Step(src, s, i).Some?
    ensures LateSignal(src, Step(src, s, i).value)
  {
    assert RankInv(src, false, 1 < |s.ranks| - 1, s.ranks[1]);
  }

  lemma {:induction false} ExecLate(src: seq<Bucket>, left: seq<Flags>, s: Chain, schedule: seq<nat>)
    requires LastFlagged(src) && AllHarmless(src, left) && Inv(src, left, s) && LateSignal(src, s)
    requires Exec(src, s, schedule).Some?
    ensures LateSignal(src, Exec(src, s, schedule).value)
    decreases schedule
  {
    if schedule != [] {
      StepInv(src, left, s, schedule[0]);
      StepLate(src, left, s, schedule[0]);
      ExecLate(src, left, Step(src, s, schedule[0]).value, schedule[1..]);
    }
  }

  /** Rank 0 alone sends one or two buckets. */
  lemma RunAllFills(src: seq<Bucket>, left: seq<Flags>) returns (s: Chain)
    requires LastFlagged(src) && |left| >= 2 && |src| <= 2
    ensures Shape(s) && Reachable(src, left, s) && |s.ranks| == |left| && At(src, s.ranks[0], true, |src|)
    ensures s.slots[0] == left[0] && s.ranks[1] == InitRank(false)
  {
    var s0 := Init(left);
    assert s0.ranks[0] == InitRank(true) && s0.ranks[1] == InitRank(false);
    var x := Run(src, s0, 0, 0);
    s := With(s0, 0, x);
    if |src| == 2 {
      var y := Run(src, s, 0, 1);
      ReachesThen(src, s0, s, With(s, 0, y));
      s := With(s, 0, y);
    }
  }

  /** Rank 0 alone, from a stale signal in the slot of its last wait, until it is done. */
  lemma RunToLate(src: seq<Bucket>, left: seq<Flags>) returns (s: Chain)
    requires LastFlagged(src) && |left| >= 2 && |src| <= 2 && left[0][(|src| + 1) % 2]
    ensures Reachable(src, left, s) && LateSignal(src, s)
  {
    var s0 := Init(left);
    s := RunAllFills(src, left);
    assert SetFlag(s.slots[0], None, false) == left[0];
    var t := Step(src, s, 0).value;
    ReachesStep(src, s, 0);
    ReachesThen(src, s0, s, t);
    s := t;
  }

  /** A stale signal in the slot of rank 0's last wait can be followed by a new one. */
  lemma StaleSurvives(src: seq<Bucket>, left: seq<Flags>) returns (s: Chain)
    requires LastFlagged(src) && AllHarmless(src, left) && |left| >= 2 && left[0][(|src| + 1) % 2]
    ensures Reachable(src, left, s) && Finished(s) && |s.slots| == |left| && s.slots[0][(|src| + 1) % 2]
  {
    var h := (|src| + 1) % 2;
    assert Harmless(src, left[0]) && (h == 0 || h == 1);
    var late := RunToLate(src, left);
    s := CanFinish(src, left, late);
    ReachableInv(src, left, late);
    var schedule :| Exec(src, late, schedule) == Some(s);
    ExecLate(src, left, late, schedule);
    ReachableInv(src, left, s);
    assert RankInv(src, false, 1 < |s.ranks| - 1, s.ranks[1]);
  }

  // ---------- histories ----------

  function Or(a: Flags, b: Flags): Flags {
    [a[0] || b[0], a[1] || b[1]]
  }

  predicate FlagsWithin(a: Flags, b: Flags) {
    (a[0] ==> b[0]) && (a[1] ==> b[1])
  }

  /** The signals that may lie in the slots of rank 0, or do lie in those of the other
      ranks with a successor, after these synchronisations. */
  function Held(first: bool, runs: seq<seq<Bucket>>): Flags {
    if runs == [] then [false, false]
    else Or(Held(first, runs[..|runs| - 1]), LeftOver(first, |runs[|runs| - 1]|))
  }

  function HeldAt(n: nat, runs: seq<seq<Bucket>>, i: nat): Flags {
    if i + 1 == n then [false, false] else Held(i == 0, runs)
  }

  function Worst(n: nat, runs: seq<seq<Bucket>>): seq<Flags> {
    seq(n, i requires 0 <= i < n => HeldAt(n, runs, i))
  }

  /** Some finished interleaving leaves these slots. */
  ghost predicate Follows(run: seq<Bucket>, found: seq<Flags>, leaves: seq<Flags>) {
    exists s :: Reachable(run, found, s) && Finished(s) && s.slots == leaves
  }

  /** The slots can be such after finished interleavings of these synchronisations of n
      fresh engines. */
  ghost predicate Session(n: nat, runs: seq<seq<Bucket>>, left: seq<Flags>)
    decreases |runs|
  {
    if runs == [] then left == Worst(n, []) else
      var init, run := runs[..|runs| - 1], runs[|runs| - 1];
      exists found :: Session(n, init, found) && Follows(run, found, left)
  }

  predicate AllFlagged(runs: seq<seq<Bucket>>) {
    forall k :: 0 <= k < |runs| ==> LastFlagged(runs[k])
  }

  /** Every signal in `left` may be there. */
  predicate Within(n: nat, runs: seq<seq<Bucket>>, left: seq<Flags>) {
    |left| == n && forall i :: 0 <= i < n ==> FlagsWithin(left[i], HeldAt(n, runs, i))
  }

  lemma HeldNext(first: bool, runs: seq<seq<Bucket>>, run: seq<Bucket>)
    ensures Held(first, runs + [run]) == Or(Held(first, runs), LeftOver(first, |run|))
  {
    assert (runs + [run])[..|runs|] == runs;
  }

  lemma LeavesWithin(first: bool, found: Flags, m: nat, leaves: Flags, held: Flags)
    requires LeavesAt(first, found, m, leaves) && FlagsWithin(found, held)
    ensures FlagsWithin(leaves, Or(held, LeftOver(first, m)))
  {
  }

  lemma FollowsWithin(n: nat, run: seq<Bucket>, found: seq<Flags>, leaves: seq<Flags>, runs: seq<seq<Bucket>>)
    requires n >= 2 && LastFlagged(run) && Within(n, runs, found)
    requires AllHarmless(run, found) && Follows(run, found, leaves)
    ensures Within(n, runs + [run], leaves)
  {
    var s :| Reachable(run, found, s) && Finished(s) && s.slots == leaves;
    FinishedLeaves(run, found, s);
    HeldNext(true, runs, run);
    HeldNext(false, runs, run);
    forall i | 0 <= i < n ensures FlagsWithin(leaves[i], HeldAt(n, runs + [run], i)) {
      assert FlagsWithin(found[i], HeldAt(n, runs, i));
      if i < n - 1 {
        LeavesWithin(i == 0, found[i], |run|, leaves[i], Held(i == 0, runs));
      }
    }
  }

  /** Some finished interleaving leaves every signal that may be left in rank 0's slots. */
  lemma WorstRun(run: seq<Bucket>, found: seq<Flags>) returns (s: Chain)
    requires LastFlagged(run) && AllHarmless(run, found) && |found| >= 2
    ensures Reachable(run, found, s) && Finished(s) && LeavesBehind(found, |run|, s.slots)
    ensures found[0][(|run| + 1) % 2] ==> s.slots[0][(|run| + 1) % 2]
  {
    if found[0][(|run| + 1) % 2] {
      s := StaleSurvives(run, found);
    } else {
      ReachesSelf(run, Init(found));
      s := CanFinish(run, found, Init(found));
    }
    FinishedLeaves(run, found, s);
  }

  lemma SameFlags(first: bool, found: Flags, m: nat, leaves: Flags)
    requires LeavesAt(first, found, m, leaves) && (first && found[(m + 1) % 2] ==> leaves[(m + 1) % 2])
    ensures leaves == Or(found, LeftOver(first, m))
  {
  }

  lemma WorstFollows(n: nat, run: seq<Bucket>, runs: seq<seq<Bucket>>)
    requires n >= 2 && LastFlagged(run) && AllHarmless(run, Worst(n, runs))
    ensures Follows(run, Worst(n, runs), Worst(n, runs + [run]))
  {
    var found, next := Worst(n, runs), Worst(n, runs + [run]);
    var s := WorstRun(run, found);
    HeldNext(true, runs, run);
    HeldNext(false, runs, run);
    forall i | 0 <= i < n ensures s.slots[i] == next[i] {
      if i < n - 1 {
        assert LeavesAt(i == 0, found[i], |run|, s.slots[i]);
        SameFlags(i == 0, found[i], |run|, s.slots[i]);
      }
    }
    assert s.slots == next;
  }

  // ---------- the next synchronisation ----------

  /** No interleaving of the next synchronisation, after any finished interleavings of
      the earlier ones, reuses a half too early. */
  ghost predicate NextIsSafe(n: nat, runs: seq<seq<Bucket>>, src: seq<Bucket>) {
    forall left, s :: Session(n, runs, left) && Reachable(src, left, s) ==> NeverOverwrites(src, s)
  }

  /** Each synchronisation was safe after all finished interleavings of the earlier ones. */
  ghost predicate AllSafe(n: nat, runs: seq<seq<Bucket>>)
    decreases |runs|
  {
    runs == [] || (AllSafe(n, runs[..|runs| - 1]) && NextIsSafe(n, runs[..|runs| - 1], runs[|runs| - 1]))
  }

  lemma SafeFollows(n: nat, runs: seq<seq<Bucket>>, run: seq<Bucket>, found: seq<Flags>)
    requires n >= 2 && LastFlagged(run) && NextIsSafe(n, runs, run) && Session(n, runs, found) && |found| == n
    ensures AllHarmless(run, found)
  {
    forall s | Reachable(run, found, s) ensures NeverOverwrites(run, s) {
    }
    SafeIffHarmless(run, found);
  }

  lemma SessionNext(n: nat, runs: seq<seq<Bucket>>, run: seq<Bucket>, found: seq<Flags>, left: seq<Flags>)
    requires n >= 2 && LastFlagged(run) && NextIsSafe(n, runs, run) && Within(n, runs, found)
    requires Session(n, runs, found) && Follows(run, found, left)
    ensures Within(n, runs + [run], left)
  {
    SafeFollows(n, runs, run, found);
    FollowsWithin(n, run, found, left, runs);
  }

  lemma SessionNone(n: nat, left: seq<Flags>)
    requires Session(n, [], left)
    ensures Within(n, [], left)
  {
  }

  lemma SessionLast(n: nat, runs: seq<seq<Bucket>>, left: seq<Flags>) returns (found: seq<Flags>)
    requires runs != [] && Session(n, runs, left)
    ensures Session(n, runs[..|runs| - 1], found) && Follows(runs[|runs| - 1], found, left)
  {
    var init, run := runs[..|runs| - 1], runs[|runs| - 1];
    found :| Session(n, init, found) && Follows(run, found, left);
  }

  lemma {:induction false} SessionWithin(n: nat, runs: seq<seq<Bucket>>, left: seq<Flags>)
    requires n >= 2 && AllFlagged(runs) && AllSafe(n, runs) && Session(n, runs, left)
    ensures Within(n, runs, left)
    decreases |runs|
  {
    if runs == [] {
      SessionNone(n, left);
    } else {
      var init, run := runs[..|runs| - 1], runs[|runs| - 1];
      var found := SessionLast(n, runs, left);
      assert forall k :: 0 <= k < |init| ==> init[k] == runs[k];
      SessionWithin(n, init, found);
      SessionNext(n, init, run, found, left);
      assert runs == init + [run];
    }
  }

  lemma {:induction false} WorstIsSession(n: nat, runs: seq<seq<Bucket>>)
    requires n >= 2 && AllFlagged(runs) && AllSafe(n, runs)
    ensures Session(n, runs, Worst(n, runs))
    decreases |runs|
  {
    if runs != [] {
      var init, run := runs[..|runs| - 1], runs[|runs| - 1];
      assert forall k :: 0 <= k < |init| ==> init[k] == runs[k];
      WorstIsSession(n, init);
      SafeFollows(n, init, run, Worst(n, init));
      WorstFollows(n, run, init);
      assert runs == init + [run];
    }
  }

  lemma SafeWithin(n: nat, runs: seq<seq<Bucket>>, src: seq<Bucket>, left: seq<Flags>)
    requires n >= 2 && Within(n, runs, left) && AllHarmless(src, Worst(n, runs))
    ensures AllHarmless(src, left)
  {
    forall i | 0 <= i < n - 1 ensures Harmless(src, left[i]) {
      assert FlagsWithin(left[i], HeldAt(n, runs, i)) && Harmless(src, Worst(n, runs)[i]);
    }
  }

  lemma NextIsSafeIff(n: nat, runs: seq<seq<Bucket>>, src: seq<Bucket>)
    requires n >= 2 && AllFlagged(runs) && AllSafe(n, runs) && LastFlagged(src)
    ensures NextIsSafe(n, runs, src) <==> AllHarmless(src, Worst(n, runs))
  {
    if AllHarmless(src, Worst(n, runs)) {
      forall left, s | Session(n, runs, left) && Reachable(src, left, s) ensures NeverOverwrites(src, s) {
        SessionWithin(n, runs, left);
        SafeWithin(n, runs, src, left);
        HarmlessNeverOverwrites(src, left, s);
      }
    } else {
      WorstIsSession(n, runs);
      SafeIffHarmless(src, Worst(n, runs));
    }
  }

  predicate SomeEven(runs: seq<seq<Bucket>>) {
    exists k :: 0 <= k < |runs| && |runs[k]| % 2 == 0
  }

  /** An odd number of buckets, but not one. */
  predicate SomeOdd(runs: seq<seq<Bucket>>) {
    exists k :: 0 <= k < |runs| && |runs[k]| % 2 == 1 && |runs[k]| != 1
  }

  lemma {:induction false} HeldFirst(runs: seq<seq<Bucket>>)
    requires AllFlagged(runs)
    ensures Held(true, runs) == [SomeEven(runs), SomeOdd(runs)]
  {
    if runs != [] {
      var k := |runs| - 1;
      HeldFirst(runs[..k]);
      assert forall j :: 0 <= j < k ==> runs[..k][j] == runs[j];
      assert |runs[k]| >= 1;
    }
  }

  lemma {:induction false} HeldOther(runs: seq<seq<Bucket>>)
    requires AllFlagged(runs)
    ensures Held(false, runs)[0] <==> runs != []
    ensures Held(false, runs)[1] ==> runs != []
  {
    if runs != [] {
      HeldOther(runs[..|runs| - 1]);
      assert |runs[|runs| - 1]| >= 1;
    }
  }

  /** After any number of finished synchronisations over the same engines, each of them
      safe, the next one is safe if and only if it is the first, or has at most two
      buckets, or there is a single receiver, no earlier one had an even number of
      buckets, and it has at most three if an earlier one had three or more. */
  lemma NextSyncSafeIff(n: nat, runs: seq<seq<Bucket>>, src: seq<Bucket>)
    requires n >= 2 && AllFlagged(runs) && AllSafe(n, runs) && LastFlagged(src)
    ensures NextIsSafe(n, runs, src)
            <==> runs == [] || |src| <= 2 || (n == 2 && !SomeEven(runs) && (SomeOdd(runs) ==> |src| <= 3))
  {
    NextIsSafeIff(n, runs, src);
    HeldFirst(runs);
    HeldOther(runs);
    var worst := Worst(n, runs);
    assert worst[0] == Held(true, runs);
    if n > 2 {
      assert worst[1] == Held(false, runs);
    }
    if runs == [] || |src| <= 2 || (n == 2 && !SomeEven(runs) && (SomeOdd(runs) ==> |src| <= 3)) {
      forall i | 0 <= i < n - 1 ensures Harmless(src, worst[i]) {
      }
    } else if n == 2 {
      assert !Harmless(src, worst[0]);
    } else {
      assert !Harmless(src, worst[1]);
    }
  }
}
