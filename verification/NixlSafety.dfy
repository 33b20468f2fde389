/** What every interleaving of the NIXL chain keeps. */
module NixlSafety {
  import opened Buckets
  import opened NixlChain
  import opened Wrappers

  // ---------- counts ----------

  /** Exposures whose notification was consumed. */
  function Acked(r: Rank): int {
    r.exposed - if r.op.Some? then 1 else 0
  }

  /** Completed remote reads. */
  function Fetched(r: Rank): int {
    r.received - if r.read.InFlight? then 1 else 0
  }

  /** Buckets that have become the current one. */
  function Installed(r: Rank): int {
    r.received - if r.read.NoRead? then 0 else 1
  }

  /** The buffer in which a rank holds bucket k: rank 0 starts with send_buf, the
      others receive into recv_buf first. */
  function SlotOf(first: bool, k: nat): Slot {
    if first then k % 2 else (k + 1) % 2
  }

  // ---------- one rank ----------

  predicate FirstRank(src: seq<Bucket>, r: Rank) {
    && r.read.NoRead? && r.received == 0
    && match r.phase
       case Fill => r.exposed < |src| && (r.op.Some? <==> r.exposed > 0)
       case Settle => r.exposed < |src| && (r.op.Some? <==> r.exposed > 0)
                      && r.bufs[r.send] == Whole(src[r.exposed].bytes)
       case Expose => r.exposed < |src| && r.op.None? && r.bufs[r.send] == Whole(src[r.exposed].bytes)
       case Drain => r.exposed == |src| && r.op.Some?
       case Done => r.exposed == |src| && r.op.None?
       case _ => false
  }

  predicate OtherRank(src: seq<Bucket>, hasNext: bool, r: Rank)
  {
    var g := Installed(r);
    var serving := if hasNext then g else 0;
    && 0 <= g <= |src| && r.received <= |src|
    && r.send == g % 2
    && (g > 0 ==> r.bufs[r.send] == Whole(src[g - 1].bytes) && r.current == MetaOf(src[g - 1]))
    && (!r.read.NoRead? ==> r.coming == MetaOf(src[g]))
    && (r.read.Landed? ==> r.bufs[Other(r.send)] == Whole(src[g].bytes))
    && match r.phase
       case AwaitMeta => r.read.NoRead? && g < |src| && r.exposed == serving && (r.op.Some? <==> hasNext && g > 0)
       case AwaitRead => !r.read.NoRead? && r.op.None? && r.exposed == serving
       case Serve => r.read.NoRead? && g > 0 && r.op.None? && r.exposed == (if hasNext then g - 1 else 0)
       case Yield(j) => g > 0 && (r.read.NoRead? <==> g == |src|) && r.exposed == serving && (r.op.Some? <==> hasNext)
                        && j <= |src[g - 1].meta|
       case AwaitAck => g > 0 && (r.read.NoRead? <==> g == |src|) && r.exposed == serving && (r.op.Some? <==> hasNext)
       case Done => r.read.NoRead? && g == |src| && r.exposed == serving && r.op.None?
       case _ => false
  }

  predicate RankInv(src: seq<Bucket>, first: bool, hasNext: bool, r: Rank)
  {
    && r.exposed <= |src|
    && (first ==> FirstRank(src, r) && hasNext && (r.exposed < |src| ==> r.send == r.exposed % 2))
    && (!first ==> OtherRank(src, hasNext, r))
    && (r.op.Some? ==> r.exposed > 0 && r.op.value == r.exposed - 1
                       && r.bufs[SlotOf(first, r.exposed - 1)] == Whole(src[r.exposed - 1].bytes))
  }

  // ---------- one link ----------

  function MessageOf(src: seq<Bucket>, first: bool, k: nat): Message
    requires k < |src|
  {
    Message(k, SlotOf(first, k), MetaOf(src[k]))
  }

  /** Between a rank and its successor there is at most one message and one
      notification, and both belong to the outstanding exposure. */
  predicate LinkInv(src: seq<Bucket>, first: bool, a: Rank, b: Rank, msgs: seq<Message>, acks: seq<nat>)
  {
    && Acked(a) <= Fetched(b) <= b.received <= a.exposed <= |src|
    && |msgs| == a.exposed - b.received && |acks| == Fetched(b) - Acked(a)
    && (|msgs| > 0 ==> msgs[0] == MessageOf(src, first, b.received))
    && (|acks| > 0 ==> acks[0] == Acked(a))
    && (b.read.InFlight? ==> b.read.key == b.received - 1 && b.read.slot == SlotOf(first, b.received - 1))
  }

  predicate LinkAt(src: seq<Bucket>, s: Chain, k: nat) {
    && Shape(s) && k < |s.msgs|
    && LinkInv(src, k == 0, s.ranks[k], s.ranks[k + 1], s.msgs[k], s.acks[k])
  }

  predicate Inv(src: seq<Bucket>, s: Chain)
  {
    && Shape(s)
    && (forall i :: 0 <= i < |s.ranks| ==> RankInv(src, i == 0, i < |s.ranks| - 1, s.ranks[i]))
    && (forall i :: 0 <= i < |s.msgs| ==> LinkAt(src, s, i))
  }

  lemma InitInv(src: seq<Bucket>, receivers: nat)
    requires LastFlagged(src) && receivers >= 1
    ensures Inv(src, Init(receivers))
  {
    var s := Init(receivers);
    assert src[..0] == [];
    forall i | 0 <= i < |s.ranks| ensures RankInv(src, i == 0, i < |s.ranks| - 1, s.ranks[i]) {
      assert s.ranks[i] == InitRank(i == 0);
    }
    forall i | 0 <= i < |s.msgs| ensures LinkAt(src, s, i) {
      assert s.ranks[i] == InitRank(i == 0) && s.ranks[i + 1] == InitRank(false);
    }
  }

  // ---------- steps ----------

  /** The messages a rank can see on its two queues. */
  predicate QueuesOk(src: seq<Bucket>, prevFirst: bool, r: Rank, inbox: seq<Message>, acks: seq<nat>) {
    && (inbox != [] ==> r.received < |src| && inbox[0] == MessageOf(src, prevFirst, r.received))
    && (acks != [] ==> r.op.Some? && acks[0] == r.op.value)
  }

  lemma FirstStep(src: seq<Bucket>, r: Rank, acks: seq<nat>)
    requires LastFlagged(src) && RankInv(src, true, true, r) && QueuesOk(src, false, r, [], acks)
    requires Local(src, true, r, [], acks).Some?
    ensures RankInv(src, true, true, Local(src, true, r, [], acks).value.rank)
  {
  }

  lemma WaitStep(src: seq<Bucket>, prevFirst: bool, hasNext: bool, r: Rank, inbox: seq<Message>, acks: seq<nat>)
    requires LastFlagged(src) && RankInv(src, false, hasNext, r) && QueuesOk(src, prevFirst, r, inbox, acks)
    requires Local(src, hasNext, r, inbox, acks).Some?
    requires r.phase.AwaitMeta? || r.phase.AwaitRead? || r.phase.AwaitAck?
    ensures RankInv(src, false, hasNext, Local(src, hasNext, r, inbox, acks).value.rank)
  {
  }

  lemma OtherStep(src: seq<Bucket>, prevFirst: bool, hasNext: bool, r: Rank, inbox: seq<Message>, acks: seq<nat>)
    requires LastFlagged(src) && RankInv(src, false, hasNext, r) && QueuesOk(src, prevFirst, r, inbox, acks)
    requires Local(src, hasNext, r, inbox, acks).Some?
    ensures RankInv(src, false, hasNext, Local(src, hasNext, r, inbox, acks).value.rank)
  {
    if r.phase.AwaitMeta? || r.phase.AwaitRead? || r.phase.AwaitAck? {
      WaitStep(src, prevFirst, hasNext, r, inbox, acks);
    }
  }

  /** What a step changes, as its neighbours see it. */
  predicate Seen(src: seq<Bucket>, first: bool, r: Rank, e: Effect, inbox: seq<Message>, acks: seq<nat>) {
    var r' := e.rank;
    && (e.popMsg <==> r'.received == r.received + 1) && (!e.popMsg ==> r'.received == r.received)
    && (e.popMsg ==> inbox != [] && r'.read == InFlight(inbox[0].slot, inbox[0].key) && !r.read.InFlight?)
    && (!e.popMsg ==> (r'.read.InFlight? <==> r.read.InFlight?) && (r.read.InFlight? ==> r'.read == r.read))
    && (e.popAck ==> acks != [] && r.op.Some? && r'.op.None?)
    && (!e.popAck && e.push.None? ==> r'.op == r.op)
    && (e.push.Some? ==>
        r.op.None? && r'.op.Some? && !e.popAck && r.exposed < |src| && e.push.value == MessageOf(src, first, r.exposed))
    && r'.exposed == r.exposed + if e.push.Some? then 1 else 0
  }

  lemma StepSeen(src: seq<Bucket>, first: bool, prevFirst: bool, hasNext: bool, r: Rank, inbox: seq<Message>,
                 acks: seq<nat>)
    requires LastFlagged(src) && RankInv(src, first, hasNext, r) && QueuesOk(src, prevFirst, r, inbox, acks)
    requires first ==> inbox == []
    requires Local(src, hasNext, r, inbox, acks).Some?
    ensures Seen(src, first, r, Local(src, hasNext, r, inbox, acks).value, inbox, acks)
  {
  }

  lemma LeftEnd(src: seq<Bucket>, first: bool, a: Rank, b: Rank, msgs: seq<Message>, acks: seq<nat>, e: Effect,
                inbox: seq<Message>)
    requires LinkInv(src, first, a, b, msgs, acks) && Seen(src, first, a, e, inbox, acks)
    ensures LinkInv(src, first, e.rank, b, if e.push.Some? then msgs + [e.push.value] else msgs,
                    if e.popAck then acks[1..] else acks)
  {
  }

  lemma RightEnd(src: seq<Bucket>, first: bool, a: Rank, b: Rank, msgs: seq<Message>, acks: seq<nat>, e: Effect,
                 acksOfB: seq<nat>)
    requires LinkInv(src, first, a, b, msgs, acks) && Seen(src, false, b, e, msgs, acksOfB)
    ensures LinkInv(src, first, a, e.rank, if e.popMsg then msgs[1..] else msgs, acks)
  {
  }

  lemma QueuesAt(src: seq<Bucket>, s: Chain, i: nat)
    requires LastFlagged(src) && Inv(src, s) && i < |s.ranks|
    ensures QueuesOk(src, i == 1, s.ranks[i], Inbox(s, i), Acks(s, i))
  {
    assert i > 0 ==> LinkAt(src, s, i - 1);
    assert i < |s.msgs| ==> LinkAt(src, s, i);
  }

  lemma AdvanceRank(src: seq<Bucket>, s: Chain, i: nat)
    requires LastFlagged(src) && Inv(src, s) && i < |s.ranks| && LocalAt(src, s, i).Some?
    ensures RankInv(src, i == 0, i < |s.ranks| - 1, LocalAt(src, s, i).value.rank)
    ensures Seen(src, i == 0, s.ranks[i], LocalAt(src, s, i).value, Inbox(s, i), Acks(s, i))
  {
    var n := |s.ranks|;
    QueuesAt(src, s, i);
    assert RankInv(src, i == 0, i < n - 1, s.ranks[i]);
    StepSeen(src, i == 0, i == 1, i < n - 1, s.ranks[i], Inbox(s, i), Acks(s, i));
    if i == 0 {
      FirstStep(src, s.ranks[0], Acks(s, 0));
    } else {
      OtherStep(src, i == 1, i < n - 1, s.ranks[i], Inbox(s, i), Acks(s, i));
    }
  }

  lemma AdvanceLink(src: seq<Bucket>, s: Chain, i: nat, e: Effect, k: nat)
    requires LinkAt(src, s, k) && i < |s.ranks|
    requires Seen(src, i == 0, s.ranks[i], e, Inbox(s, i), Acks(s, i))
    ensures LinkAt(src, Apply(s, i, e), k)
  {
    var s' := Apply(s, i, e);
    if k == i {
      LeftEnd(src, k == 0, s.ranks[k], s.ranks[k + 1], s.msgs[k], s.acks[k], e, Inbox(s, i));
      assert s'.msgs[k] == if e.push.Some? then s.msgs[k] + [e.push.value] else s.msgs[k];
      assert s'.ranks[k] == e.rank && s'.ranks[k + 1] == s.ranks[k + 1];
    } else if k + 1 == i {
      RightEnd(src, k == 0, s.ranks[k], s.ranks[k + 1], s.msgs[k], s.acks[k], e, Acks(s, i));
      assert s'.msgs[k] == if e.popMsg then s.msgs[k][1..] else s.msgs[k];
      assert s'.ranks[k] == s.ranks[k] && s'.ranks[k + 1] == e.rank && s'.acks[k] == s.acks[k];
    } else {
      assert s'.ranks[k] == s.ranks[k] && s'.ranks[k + 1] == s.ranks[k + 1];
      assert s'.msgs[k] == s.msgs[k] && s'.acks[k] == s.acks[k];
    }
  }

  /** A rank's own step keeps the invariant; in particular no rank ever faults. */
  lemma AdvanceInv(src: seq<Bucket>, s: Chain, i: nat)
    requires LastFlagged(src) && Inv(src, s) && i < |s.ranks| && LocalAt(src, s, i).Some?
    ensures Inv(src, Apply(s, i, LocalAt(src, s, i).value))
  {
    var e := LocalAt(src, s, i).value;
    var s' := Apply(s, i, e);
    AdvanceRank(src, s, i);
    forall k | 0 <= k < |s.msgs| ensures LinkAt(src, s', k) {
      assert LinkAt(src, s, k);
      AdvanceLink(src, s, i, e, k);
    }
    forall k | 0 <= k < |s.ranks| ensures RankInv(src, k == 0, k < |s.ranks| - 1, s'.ranks[k]) {
      assert RankInv(src, k == 0, k < |s.ranks| - 1, s.ranks[k]);
    }
  }

  /** A read finds the whole bucket: its owner is still waiting for this notification. */
  lemma OwnerHolds(src: seq<Bucket>, s: Chain, i: nat)
    requires LastFlagged(src) && Inv(src, s) && 0 < i < |s.ranks|
    requires s.msgs[i - 1] != [] || s.ranks[i].read.InFlight?
    ensures var a, k := s.ranks[i - 1], s.ranks[i - 1].exposed - 1;
            && 0 <= k < |src| && a.op == Some(k) && a.bufs[SlotOf(i == 1, k)] == Whole(src[k].bytes)
            && (s.msgs[i - 1] != [] ==> s.msgs[i - 1] == [MessageOf(src, i == 1, k)] && !s.ranks[i].read.InFlight?)
            && (s.ranks[i].read.InFlight? ==>
                s.ranks[i].read == InFlight(SlotOf(i == 1, k), k) && s.ranks[i].received - 1 == k)
  {
    assert LinkAt(src, s, i - 1);
    assert RankInv(src, i - 1 == 0, true, s.ranks[i - 1]);
  }

  lemma TransferLink(src: seq<Bucket>, s: Chain, i: nat, k: nat)
    requires LinkAt(src, s, k) && 0 < i < |s.ranks| && s.ranks[i].read.InFlight?
    ensures LinkAt(src, Land(s, i), k)
  {
  }

  lemma TransferInv(src: seq<Bucket>, s: Chain, i: nat)
    requires LastFlagged(src) && Inv(src, s) && 0 < i < |s.ranks| && s.ranks[i].read.InFlight?
    ensures Inv(src, Land(s, i))
  {
    var s' := Land(s, i);
    OwnerHolds(src, s, i);
    forall k | 0 <= k < |s.ranks| ensures RankInv(src, k == 0, k < |s.ranks| - 1, s'.ranks[k]) {
      assert RankInv(src, k == 0, k < |s.ranks| - 1, s.ranks[k]);
    }
    forall k | 0 <= k < |s.msgs| ensures LinkAt(src, s', k) {
      assert LinkAt(src, s, k);
      TransferLink(src, s, i, k);
    }
  }

  lemma StepInv(src: seq<Bucket>, s: Chain, a: Action)
    requires LastFlagged(src) && Inv(src, s) && Step(src, s, a).Some?
    ensures Inv(src, Step(src, s, a).value)
  {
    match a
    case Advance(i) => AdvanceInv(src, s, i);
    case Transfer(i) => TransferInv(src, s, i);
  }

  lemma {:induction false} ExecInv(src: seq<Bucket>, s: Chain, schedule: seq<Action>)
    requires LastFlagged(src) && Inv(src, s) && Exec(src, s, schedule).Some?
    ensures Inv(src, Exec(src, s, schedule).value)
    decreases schedule
  {
    if schedule != [] {
      StepInv(src, s, schedule[0]);
      ExecInv(src, Step(src, s, schedule[0]).value, schedule[1..]);
    }
  }

  lemma ReachableInv(src: seq<Bucket>, receivers: nat, s: Chain)
    requires LastFlagged(src) && receivers >= 1 && Reachable(src, receivers, s)
    ensures Inv(src, s) && |s.ranks| == receivers + 1
  {
    var schedule :| Exec(src, Init(receivers), schedule) == Some(s);
    InitInv(src, receivers);
    ExecInv(src, Init(receivers), schedule);
    ExecLength(src, Init(receivers), schedule);
  }

  lemma {:induction false} ExecLength(src: seq<Bucket>, s: Chain, schedule: seq<Action>)
    requires Exec(src, s, schedule).Some?
    ensures |Exec(src, s, schedule).value.ranks| == |s.ranks|
    decreases schedule
  {
    if schedule != [] {
      ExecLength(src, Step(src, s, schedule[0]).value, schedule[1..]);
    }
  }

  // ---------- what this means for every interleaving ----------

  /** The notify-key assertion never fires and no torn buffer is ever yielded. */
  lemma NoFault(src: seq<Bucket>, receivers: nat, s: Chain)
    requires LastFlagged(src) && receivers >= 1 && Reachable(src, receivers, s)
    ensures forall i :: 0 <= i < |s.ranks| ==> s.ranks[i].phase != Faulted
  {
    ReachableInv(src, receivers, s);
    forall i | 0 <= i < |s.ranks| ensures s.ranks[i].phase != Faulted {
      assert RankInv(src, i == 0, i < |s.ranks| - 1, s.ranks[i]);
    }
  }

  /** Rank i + 1 has been told of this buffer of rank i and has not finished reading it. */
  predicate BeingRead(s: Chain, i: nat, slot: Slot)
    requires Shape(s) && i < |s.msgs|
  {
    || (exists m :: m in s.msgs[i] && m.slot == slot)
    || (s.ranks[i + 1].read.InFlight? && s.ranks[i + 1].read.slot == slot)
  }

  lemma OwnStepKeepsExposed(src: seq<Bucket>, first: bool, hasNext: bool, r: Rank, inbox: seq<Message>, acks: seq<nat>)
    requires LastFlagged(src) && RankInv(src, first, hasNext, r) && r.op.Some? && (first ==> inbox == [])
    requires Local(src, hasNext, r, inbox, acks).Some?
    ensures var slot := SlotOf(first, r.exposed - 1);
            Local(src, hasNext, r, inbox, acks).value.rank.bufs[slot] == r.bufs[slot]
  {
  }

  lemma ReadKeepsExposed(src: seq<Bucket>, hasNext: bool, r: Rank)
    requires LastFlagged(src) && RankInv(src, false, hasNext, r) && r.op.Some? && r.read.InFlight?
    ensures Other(r.send) != SlotOf(false, r.exposed - 1)
  {
  }

  lemma StepKeepsExposed(src: seq<Bucket>, s: Chain, a: Action, i: nat)
    requires LastFlagged(src) && Inv(src, s) && Step(src, s, a).Some?
    requires i < |s.msgs| && s.ranks[i].op.Some?
    ensures var slot := SlotOf(i == 0, s.ranks[i].exposed - 1);
            Step(src, s, a).value.ranks[i].bufs[slot] == s.ranks[i].bufs[slot]
  {
    var r := s.ranks[i];
    assert RankInv(src, i == 0, true, r);
    if a == Advance(i) {
      OwnStepKeepsExposed(src, i == 0, true, r, Inbox(s, i), Acks(s, i));
    } else if a == Transfer(i) {
      ReadKeepsExposed(src, true, r);
    }
  }

  lemma BeingReadIsExposed(src: seq<Bucket>, s: Chain, i: nat, slot: Slot)
    requires LastFlagged(src) && Inv(src, s) && i < |s.msgs| && BeingRead(s, i, slot)
    ensures var r := s.ranks[i];
            && r.op.Some? && 0 < r.exposed <= |src| && slot == SlotOf(i == 0, r.exposed - 1)
            && r.bufs[slot] == Whole(src[r.exposed - 1].bytes)
  {
    OwnerHolds(src, s, i + 1);
  }

  /** No step of any rank changes a buffer that the successor has not finished
      reading, and that buffer holds one whole bucket. */
  lemma NoOverwrite(src: seq<Bucket>, receivers: nat, s: Chain, a: Action, i: nat, slot: Slot)
    requires LastFlagged(src) && receivers >= 1 && Reachable(src, receivers, s)
    requires Step(src, s, a).Some?
    requires Shape(s) && i < receivers && |s.msgs| == receivers && BeingRead(s, i, slot)
    ensures Step(src, s, a).value.ranks[i].bufs[slot] == s.ranks[i].bufs[slot]
    ensures exists k :: 0 <= k < |src| && s.ranks[i].bufs[slot] == Whole(src[k].bytes)
  {
    ReachableInv(src, receivers, s);
    BeingReadIsExposed(src, s, i, slot);
    StepKeepsExposed(src, s, a, i);
  }

  /** Each link has at most one outstanding operation: announced, being read, or
      read and not yet acknowledged. */
  lemma OneOutstanding(src: seq<Bucket>, receivers: nat, s: Chain, i: nat)
    requires LastFlagged(src) && receivers >= 1 && Reachable(src, receivers, s) && i < receivers
    ensures |s.ranks| == receivers + 1 && |s.msgs| == |s.acks| == receivers
    ensures |s.msgs[i]| + (if s.ranks[i + 1].read.InFlight? then 1 else 0) + |s.acks[i]|
            == if s.ranks[i].op.Some? then 1 else 0
  {
    ReachableInv(src, receivers, s);
    assert LinkAt(src, s, i);
  }

  /** Buckets whose bytes are complete in a buffer of the rank. */
  function Loaded(first: bool, r: Rank): int {
    if first then r.exposed + (if r.phase.Settle? || r.phase.Expose? then 1 else 0) else Fetched(r)
  }

  lemma AtMostTwoAhead(src: seq<Bucket>, receivers: nat, s: Chain, i: nat)
    requires LastFlagged(src) && receivers >= 1 && Reachable(src, receivers, s) && i < receivers
    ensures |s.ranks| == receivers + 1
    ensures Loaded(false, s.ranks[i + 1]) <= Loaded(i == 0, s.ranks[i]) <= Loaded(false, s.ranks[i + 1]) + 2
  {
    ReachableInv(src, receivers, s);
    assert RankInv(src, i == 0, true, s.ranks[i]);
    assert LinkAt(src, s, i);
  }

  // ---------- what is yielded ----------

  /** The chunks a rank has yielded, by where it is in its loop. */
  predicate Yielded(src: seq<Bucket>, r: Rank) {
    var g := Installed(r);
    && 0 <= g <= |src|
    && match r.phase
       case AwaitMeta => r.out == UnpackAll(src[..if g > 0 then g - 1 else 0], Separate)
       case Serve => g > 0 && r.out == UnpackAll(src[..g - 1], Separate)
       case Yield(j) => g > 0 && j <= |src[g - 1].meta| && r.out == OutAt(src, Separate, g, j)
       case _ => r.out == UnpackAll(src[..g], Separate)
  }

  lemma YieldStep(src: seq<Bucket>, hasNext: bool, r: Rank, inbox: seq<Message>, acks: seq<nat>)
    requires RankInv(src, false, hasNext, r) && Yielded(src, r) && r.phase.Yield?
    ensures Yielded(src, Local(src, hasNext, r, inbox, acks).value.rank)
  {
    OutAtNext(src, Separate, Installed(r), r.phase.next);
  }

  lemma BeforeYieldStep(src: seq<Bucket>, hasNext: bool, r: Rank, inbox: seq<Message>, acks: seq<nat>)
    requires RankInv(src, false, hasNext, r) && Yielded(src, r) && (r.phase.AwaitMeta? || r.phase.Serve?)
    requires Local(src, hasNext, r, inbox, acks).Some?
    ensures Yielded(src, Local(src, hasNext, r, inbox, acks).value.rank)
  {
    if Installed(r) > 0 {
      OutAtNext(src, Separate, Installed(r), 0);
    }
  }

  lemma YieldedStep(src: seq<Bucket>, hasNext: bool, r: Rank, inbox: seq<Message>, acks: seq<nat>)
    requires LastFlagged(src) && RankInv(src, false, hasNext, r) && Yielded(src, r)
    requires Local(src, hasNext, r, inbox, acks).Some?
    requires acks != [] ==> r.op.Some? && acks[0] == r.op.value
    ensures Yielded(src, Local(src, hasNext, r, inbox, acks).value.rank)
  {
    if r.phase.Yield? {
      YieldStep(src, hasNext, r, inbox, acks);
    } else if r.phase.AwaitMeta? || r.phase.Serve? {
      BeforeYieldStep(src, hasNext, r, inbox, acks);
    }
  }

  predicate AllYielded(src: seq<Bucket>, s: Chain) {
    forall i :: 0 < i < |s.ranks| ==> Yielded(src, s.ranks[i])
  }

  lemma {:induction false} ExecYielded(src: seq<Bucket>, s: Chain, schedule: seq<Action>)
    requires LastFlagged(src) && Inv(src, s) && AllYielded(src, s) && Exec(src, s, schedule).Some?
    ensures AllYielded(src, Exec(src, s, schedule).value)
    decreases schedule
  {
    if schedule != [] {
      var a := schedule[0];
      var s', i := Step(src, s, a).value, a.rank;
      StepInv(src, s, a);
      if a.Advance? && i > 0 {
        QueuesAt(src, s, i);
        assert RankInv(src, false, i < |s.ranks| - 1, s.ranks[i]);
        YieldedStep(src, i < |s.ranks| - 1, s.ranks[i], Inbox(s, i), Acks(s, i));
      }
      forall k | 0 < k < |s'.ranks| ensures Yielded(src, s'.ranks[k]) {
        assert Yielded(src, s.ranks[k]);
      }
      ExecYielded(src, s', schedule[1..]);
    }
  }

  lemma YieldedIsPrefix(src: seq<Bucket>, r: Rank)
    requires Yielded(src, r)
    ensures r.out <= UnpackAll(src, Separate)
  {
    var g := Installed(r);
    UnpackAllPrefix(src, Separate, g);
    if g > 0 {
      UnpackAllPrefix(src, Separate, g - 1);
      if r.phase.Yield? {
        ViewsPrefixOf(src[g - 1], 0, r.phase.next);
        UnpackPrefix(src, Separate, g - 1);
      }
    }
  }

  lemma InitYielded(src: seq<Bucket>, receivers: nat)
    ensures AllYielded(src, Init(receivers))
  {
    assert src[..0] == [];
    forall k | 0 < k < |Init(receivers).ranks| ensures Yielded(src, Init(receivers).ranks[k]) {
      assert Init(receivers).ranks[k] == InitRank(false);
    }
  }

  /** At every moment a rank has yielded a prefix of rank 0's chunks, and all of
      them once it is done. */
  lemma YieldsInOrder(src: seq<Bucket>, receivers: nat, s: Chain, i: nat)
    requires LastFlagged(src) && receivers >= 1 && Reachable(src, receivers, s) && 0 < i <= receivers
    ensures |s.ranks| == receivers + 1
    ensures s.ranks[i].out <= UnpackAll(src, Separate)
    ensures s.ranks[i].phase == Done ==> s.ranks[i].out == UnpackAll(src, Separate)
  {
    ReachableInv(src, receivers, s);
    var schedule :| Exec(src, Init(receivers), schedule) == Some(s);
    InitInv(src, receivers);
    InitYielded(src, receivers);
    ExecYielded(src, Init(receivers), schedule);
    YieldedIsPrefix(src, s.ranks[i]);
    assert RankInv(src, false, i < |s.ranks| - 1, s.ranks[i]) && src[..|src|] == src;
  }
}
