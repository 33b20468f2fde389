/** What every interleaving of the Mooncake chain keeps, and for which initial slots. */
module MooncakeSafety {
  import opened Buckets
  import opened MooncakeChain
  import opened Wrappers

  // ---------- counts ----------

  /** Messages sent to the successor. */
  function Sent(first: bool, r: Rank): nat {
    if r.phase.Drain? || r.phase.Yield? || r.phase.Signal? || (first && r.phase.Done?) then r.idx + 1 else r.idx
  }

  function Received(r: Rank): nat {
    if r.phase.Recv? || r.phase.Done? then r.idx else r.idx + 1
  }

  /** Waits for a half that were completed; the j-th one is for bucket j. */
  function Waited(r: Rank): int {
    var w := if r.phase.Reuse? || r.phase.Recv? || r.phase.Credit? then r.idx - 2
             else if r.phase.Done? && !r.shouldWait then r.idx - 2
             else r.idx - 1;
    if w < 0 then 0 else w
  }

  /** A signal for a bucket of this half was written and not yet waited for. */
  predicate Pending(waited: int, signalled: int, h: Half) {
    (waited < signalled && waited % 2 == h) || (waited + 1 < signalled && (waited + 1) % 2 == h)
  }

  // ---------- invariants ----------

  predicate FirstRank(src: seq<Bucket>, r: Rank) {
    && r.idx < |src| && (r.shouldWait <==> r.idx > 0)
    && match r.phase
       case Fill => true
       case Send => r.bufs[r.Current()] == Whole(src[r.idx].bytes)
       case Reuse => r.idx >= 2
       case Drain => r.idx == |src| - 1
       case Done => r.idx == |src| - 1
       case _ => false
  }

  predicate HasInfo(src: seq<Bucket>, r: Rank) {
    r.idx < |src| && r.info == Info(r.Current(), src[r.idx].meta, src[r.idx].isLast)
  }

  predicate OtherRank(src: seq<Bucket>, hasNext: bool, r: Rank) {
    && !r.shouldWait
    && match r.phase
       case Recv => r.idx < |src|
       case Credit => HasInfo(src, r) && r.idx >= 2 && hasNext
       case Read => HasInfo(src, r)
       case Reading => HasInfo(src, r)
       case Forward => HasInfo(src, r) && r.bufs[r.Current()] == Whole(src[r.idx].bytes)
       case Yield(j) => HasInfo(src, r) && r.bufs[r.Current()] == Whole(src[r.idx].bytes) && j <= |src[r.idx].meta|
       case Signal => HasInfo(src, r) && r.bufs[r.Current()] == Whole(src[r.idx].bytes)
       case Done => r.idx == |src|
       case _ => false
  }

  predicate RankInv(src: seq<Bucket>, first: bool, hasNext: bool, r: Rank) {
    if first then hasNext && FirstRank(src, r) else OtherRank(src, hasNext, r)
  }

  function InfoOf(src: seq<Bucket>, k: nat): Info
    requires k < |src|
  {
    Info(k % 2, src[k].meta, src[k].isLast)
  }

  /** A signal left over in a slot does no harm when this slot is never waited on
      before the last bucket: the first wait on slot 0 is before bucket 2, the
      first wait on slot 1 is before bucket 3. */
  predicate Harmless(src: seq<Bucket>, slots: Flags) {
    (slots[0] ==> |src| <= 2) && (slots[1] ==> |src| <= 3)
  }

  /** How far apart a rank and its successor are, and the metadata in between. */
  predicate CountsInv(src: seq<Bucket>, first: bool, a: Rank, b: Rank, msgs: seq<Info>) {
    var sent, received := Sent(first, a), Received(b);
    && Waited(a) <= b.idx <= received <= sent <= |src| && sent <= Waited(a) + 2
    && |msgs| == sent - received
    && (|msgs| >= 1 ==> msgs[0] == InfoOf(src, received))
    && (|msgs| >= 2 ==> msgs[1] == InfoOf(src, received + 1))
  }

  /** A slot that was clear at the start is set exactly when a signal waits in it;
      the last wait of rank 0 has taken the signal of the last bucket. */
  predicate SlotInv(first: bool, a: Rank, b: Rank, set_: bool, h: Half) {
    set_ <==> Pending(Waited(a), b.idx, h) && !(first && a.phase.Done? && h == a.Current())
  }

  predicate SlotsInv(first: bool, left: Flags, a: Rank, b: Rank, slots: Flags) {
    && (!left[0] ==> SlotInv(first, a, b, slots[0], 0))
    && (!left[1] ==> SlotInv(first, a, b, slots[1], 1))
    && (first && a.phase.Done? && !left[a.Current()] ==> b.idx == a.idx + 1)
  }

  predicate HalfHolds(src: seq<Bucket>, a: Rank, k: int) {
    0 <= k < |src| && a.bufs[k % 2] == Whole(src[k].bytes)
  }

  /** Every bucket sent and not yet signalled is still whole in its half. */
  predicate HalvesInv(src: seq<Bucket>, first: bool, a: Rank, b: Rank) {
    var sent := Sent(first, a);
    && (b.idx <= sent - 1 ==> HalfHolds(src, a, sent - 1))
    && (b.idx <= sent - 2 ==> HalfHolds(src, a, sent - 2))
  }

  /** Between a rank and its successor. `left` are the slots as the synchronisation found them. */
  predicate LinkInv(src: seq<Bucket>, first: bool, left: Flags, a: Rank, b: Rank, msgs: seq<Info>, slots: Flags) {
    CountsInv(src, first, a, b, msgs) && SlotsInv(first, left, a, b, slots) && HalvesInv(src, first, a, b)
  }

  predicate LinkAt(src: seq<Bucket>, left: seq<Flags>, s: Chain, k: nat) {
    && Shape(s) && k < |s.msgs| && |left| == |s.ranks|
    && LinkInv(src, k == 0, left[k], s.ranks[k], s.ranks[k + 1], s.msgs[k], s.slots[k])
  }

  predicate Inv(src: seq<Bucket>, left: seq<Flags>, s: Chain) {
    && Shape(s) && |left| == |s.ranks|
    && (forall i :: 0 <= i < |s.ranks| ==> RankInv(src, i == 0, i < |s.ranks| - 1, s.ranks[i]))
    && (forall i :: 0 <= i < |s.msgs| ==> LinkAt(src, left, s, i))
  }

  predicate AllHarmless(src: seq<Bucket>, left: seq<Flags>) {
    forall i :: 0 <= i < |left| - 1 ==> Harmless(src, left[i])
  }

  lemma InitInv(src: seq<Bucket>, left: seq<Flags>)
    requires LastFlagged(src) && |left| >= 2
    ensures Inv(src, left, Init(left))
  {
    var s := Init(left);
    forall i | 0 <= i < |s.ranks| ensures RankInv(src, i == 0, i < |s.ranks| - 1, s.ranks[i]) {
      assert s.ranks[i] == InitRank(i == 0);
    }
    forall i | 0 <= i < |s.msgs| ensures LinkAt(src, left, s, i) {
      assert s.ranks[i] == InitRank(i == 0) && s.ranks[i + 1] == InitRank(false);
    }
  }

  // ---------- steps ----------

  lemma FirstStep(src: seq<Bucket>, r: Rank, slots: Flags, prev: Cells)
    requires LastFlagged(src) && RankInv(src, true, true, r)
    requires Local(src, true, r, [], slots, prev).Some?
    ensures RankInv(src, true, true, Local(src, true, r, [], slots, prev).value.rank)
  {
  }

  lemma OtherStep(src: seq<Bucket>, hasNext: bool, r: Rank, inbox: seq<Info>, slots: Flags, prev: Cells)
    requires LastFlagged(src) && RankInv(src, false, hasNext, r)
    requires inbox != [] && r.phase.Recv? ==> inbox[0] == InfoOf(src, r.idx)
    requires r.phase.Reading? ==> prev[r.idx % 2] == Whole(src[r.idx].bytes)
    requires Local(src, hasNext, r, inbox, slots, prev).Some?
    ensures RankInv(src, false, hasNext, Local(src, hasNext, r, inbox, slots, prev).value.rank)
  {
  }

  ghost predicate LeftSteps(src: seq<Bucket>, first: bool, left: Flags, a: Rank, b: Rank, msgs: seq<Info>, slots: Flags,
                            inbox: seq<Info>, prev: Cells) {
    && LastFlagged(src) && RankInv(src, first, true, a) && Harmless(src, left)
    && LinkInv(src, first, left, a, b, msgs, slots)
    && Local(src, true, a, inbox, slots, prev).Some?
  }

  lemma FirstCounts(src: seq<Bucket>, left: Flags, a: Rank, b: Rank, msgs: seq<Info>, slots: Flags, inbox: seq<Info>,
                    prev: Cells)
    requires LeftSteps(src, true, left, a, b, msgs, slots, inbox, prev)
    ensures var e := Local(src, true, a, inbox, slots, prev).value;
            CountsInv(src, true, e.rank, b, if e.push.Some? then msgs + [e.push.value] else msgs)
  {
  }

  lemma FirstSlots(src: seq<Bucket>, left: Flags, a: Rank, b: Rank, msgs: seq<Info>, slots: Flags, inbox: seq<Info>,
                   prev: Cells)
    requires LeftSteps(src, true, left, a, b, msgs, slots, inbox, prev)
    ensures var e := Local(src, true, a, inbox, slots, prev).value;
            SlotsInv(true, left, e.rank, b, SetFlag(slots, e.clear, false))
  {
  }

  lemma OtherCounts(src: seq<Bucket>, left: Flags, a: Rank, b: Rank, msgs: seq<Info>, slots: Flags, inbox: seq<Info>,
                    prev: Cells)
    requires LeftSteps(src, false, left, a, b, msgs, slots, inbox, prev)
    ensures var e := Local(src, true, a, inbox, slots, prev).value;
            CountsInv(src, false, e.rank, b, if e.push.Some? then msgs + [e.push.value] else msgs)
  {
  }

  lemma OtherSlots(src: seq<Bucket>, left: Flags, a: Rank, b: Rank, msgs: seq<Info>, slots: Flags, inbox: seq<Info>,
                   prev: Cells)
    requires LeftSteps(src, false, left, a, b, msgs, slots, inbox, prev)
    ensures var e := Local(src, true, a, inbox, slots, prev).value;
            SlotsInv(false, left, e.rank, b, SetFlag(slots, e.clear, false))
  {
  }

  lemma FirstHalvesSend(src: seq<Bucket>, left: Flags, a: Rank, b: Rank, msgs: seq<Info>, slots: Flags,
                        inbox: seq<Info>, prev: Cells)
    requires LeftSteps(src, true, left, a, b, msgs, slots, inbox, prev) && a.phase.Send?
    ensures var e := Local(src, true, a, inbox, slots, prev).value;
            HalvesInv(src, true, e.rank, b)
  {
  }

  lemma FirstHalves(src: seq<Bucket>, left: Flags, a: Rank, b: Rank, msgs: seq<Info>, slots: Flags, inbox: seq<Info>,
                    prev: Cells)
    requires LeftSteps(src, true, left, a, b, msgs, slots, inbox, prev) && !a.phase.Send?
    ensures var e := Local(src, true, a, inbox, slots, prev).value;
            HalvesInv(src, true, e.rank, b)
  {
  }

  lemma ReadHalves(src: seq<Bucket>, left: Flags, a: Rank, b: Rank, msgs: seq<Info>, slots: Flags, inbox: seq<Info>,
                   prev: Cells)
    requires LeftSteps(src, false, left, a, b, msgs, slots, inbox, prev) && (a.phase.Read? || a.phase.Reading?)
    ensures var e := Local(src, true, a, inbox, slots, prev).value;
            HalvesInv(src, false, e.rank, b)
  {
  }

  lemma SentHalves(src: seq<Bucket>, left: Flags, a: Rank, b: Rank, msgs: seq<Info>, slots: Flags, inbox: seq<Info>,
                   prev: Cells)
    requires LeftSteps(src, false, left, a, b, msgs, slots, inbox, prev)
    requires (a.phase.Forward? || a.phase.Yield? || a.phase.Signal?)
    ensures var e := Local(src, true, a, inbox, slots, prev).value;
            HalvesInv(src, false, e.rank, b)
  {
  }

  lemma OtherHalves(src: seq<Bucket>, left: Flags, a: Rank, b: Rank, msgs: seq<Info>, slots: Flags, inbox: seq<Info>,
                    prev: Cells)
    requires LeftSteps(src, false, left, a, b, msgs, slots, inbox, prev) && (a.phase.Recv? || a.phase.Credit?)
    ensures var e := Local(src, true, a, inbox, slots, prev).value;
            HalvesInv(src, false, e.rank, b)
  {
  }

  /** A step of the rank that owns the halves. */
  lemma LeftEnd(src: seq<Bucket>, first: bool, left: Flags, a: Rank, b: Rank, msgs: seq<Info>, slots: Flags,
                inbox: seq<Info>, prev: Cells)
    requires LeftSteps(src, first, left, a, b, msgs, slots, inbox, prev)
    ensures var e := Local(src, true, a, inbox, slots, prev).value;
            LinkInv(src, first, left, e.rank, b, if e.push.Some? then msgs + [e.push.value] else msgs,
                    SetFlag(slots, e.clear, false))
  {
    if first {
      FirstCounts(src, left, a, b, msgs, slots, inbox, prev);
      FirstSlots(src, left, a, b, msgs, slots, inbox, prev);
      if a.phase.Send? {
        FirstHalvesSend(src, left, a, b, msgs, slots, inbox, prev);
      } else {
        FirstHalves(src, left, a, b, msgs, slots, inbox, prev);
      }
    } else {
      OtherCounts(src, left, a, b, msgs, slots, inbox, prev);
      OtherSlots(src, left, a, b, msgs, slots, inbox, prev);
      if a.phase.Read? || a.phase.Reading? {
        ReadHalves(src, left, a, b, msgs, slots, inbox, prev);
      } else if a.phase.Recv? || a.phase.Credit? {
        OtherHalves(src, left, a, b, msgs, slots, inbox, prev);
      } else {
        SentHalves(src, left, a, b, msgs, slots, inbox, prev);
      }
    }
  }

  ghost predicate RightSteps(src: seq<Bucket>, first: bool, a: Rank, b: Rank, msgs: seq<Info>, hasNext: bool,
                             slotsOfB: Flags) {
    && LastFlagged(src) && RankInv(src, false, hasNext, b) && CountsInv(src, first, a, b, msgs)
    && Local(src, hasNext, b, msgs, slotsOfB, a.bufs).Some?
  }

  lemma RightCounts(src: seq<Bucket>, first: bool, a: Rank, b: Rank, msgs: seq<Info>, hasNext: bool, slotsOfB: Flags)
    requires RightSteps(src, first, a, b, msgs, hasNext, slotsOfB)
    ensures var e := Local(src, hasNext, b, msgs, slotsOfB, a.bufs).value;
            CountsInv(src, first, a, e.rank, if e.pop then msgs[1..] else msgs)
  {
  }

  lemma RightSlots(src: seq<Bucket>, first: bool, left: Flags, a: Rank, b: Rank, msgs: seq<Info>, slots: Flags,
                   hasNext: bool, slotsOfB: Flags)
    requires RightSteps(src, first, a, b, msgs, hasNext, slotsOfB) && SlotsInv(first, left, a, b, slots)
    requires RankInv(src, first, true, a)
    ensures var e := Local(src, hasNext, b, msgs, slotsOfB, a.bufs).value;
            SlotsInv(first, left, a, e.rank, SetFlag(slots, e.signal, true)) && e.rank.idx >= b.idx
  {
  }

  /** A step of the rank that reads them. */
  lemma RightEnd(src: seq<Bucket>, first: bool, left: Flags, a: Rank, b: Rank, msgs: seq<Info>, slots: Flags,
                 hasNext: bool, slotsOfB: Flags)
    requires RightSteps(src, first, a, b, msgs, hasNext, slotsOfB) && LinkInv(src, first, left, a, b, msgs, slots)
    requires RankInv(src, first, true, a)
    ensures var e := Local(src, hasNext, b, msgs, slotsOfB, a.bufs).value;
            LinkInv(src, first, left, a, e.rank, if e.pop then msgs[1..] else msgs, SetFlag(slots, e.signal, true))
  {
    RightCounts(src, first, a, b, msgs, hasNext, slotsOfB);
    RightSlots(src, first, left, a, b, msgs, slots, hasNext, slotsOfB);
  }

  lemma AdvanceRank(src: seq<Bucket>, left: seq<Flags>, s: Chain, i: nat)
    requires LastFlagged(src) && Inv(src, left, s) && i < |s.ranks| && LocalAt(src, s, i).Some?
    ensures RankInv(src, i == 0, i < |s.ranks| - 1, LocalAt(src, s, i).value.rank)
  {
    var r := s.ranks[i];
    assert RankInv(src, i == 0, i < |s.ranks| - 1, r);
    if i == 0 {
      FirstStep(src, r, s.slots[i], Prev(s, i));
    } else {
      assert LinkAt(src, left, s, i - 1);
      OtherStep(src, i < |s.ranks| - 1, r, Inbox(s, i), s.slots[i], Prev(s, i));
    }
  }

  lemma AdvanceLeftLink(src: seq<Bucket>, left: seq<Flags>, s: Chain, i: nat)
    requires LastFlagged(src) && LinkAt(src, left, s, i) && Harmless(src, left[i])
    requires RankInv(src, i == 0, true, s.ranks[i]) && LocalAt(src, s, i).Some?
    ensures LinkAt(src, left, Apply(s, i, LocalAt(src, s, i).value), i)
  {
    var e := LocalAt(src, s, i).value;
    var s' := Apply(s, i, e);
    LeftEnd(src, i == 0, left[i], s.ranks[i], s.ranks[i + 1], s.msgs[i], s.slots[i], Inbox(s, i), Prev(s, i));
    assert s'.ranks[i] == e.rank && s'.ranks[i + 1] == s.ranks[i + 1];
    assert s'.msgs[i] == if e.push.Some? then s.msgs[i] + [e.push.value] else s.msgs[i];
    assert s'.slots[i] == SetFlag(s.slots[i], e.clear, false);
  }

  lemma AdvanceRightLink(src: seq<Bucket>, left: seq<Flags>, s: Chain, i: nat)
    requires LastFlagged(src) && i > 0 && LinkAt(src, left, s, i - 1) && RankInv(src, i == 1, true, s.ranks[i - 1])
    requires RankInv(src, false, i < |s.ranks| - 1, s.ranks[i]) && LocalAt(src, s, i).Some?
    ensures LinkAt(src, left, Apply(s, i, LocalAt(src, s, i).value), i - 1)
  {
    var e, k := LocalAt(src, s, i).value, i - 1;
    RightEnd(src, k == 0, left[k], s.ranks[k], s.ranks[i], s.msgs[k], s.slots[k], i < |s.ranks| - 1, s.slots[i]);
    ApplyAtRight(s, i, e);
    IsLinkAt(src, left, Apply(s, i, e), k, s.ranks[k], e.rank,
             if e.pop && s.msgs[k] != [] then s.msgs[k][1..] else s.msgs[k], SetFlag(s.slots[k], e.signal, true));
  }

  lemma IsLinkAt(src: seq<Bucket>, left: seq<Flags>, s: Chain, k: nat, a: Rank, b: Rank, msgs: seq<Info>, slots: Flags)
    requires Shape(s) && k < |s.msgs| && |left| == |s.ranks|
    requires s.ranks[k] == a && s.ranks[k + 1] == b && s.msgs[k] == msgs && s.slots[k] == slots
    requires LinkInv(src, k == 0, left[k], a, b, msgs, slots)
    ensures LinkAt(src, left, s, k)
  {
  }

  lemma ApplyAtRight(s: Chain, i: nat, e: Effect)
    requires Shape(s) && 0 < i < |s.ranks|
    ensures var s', k := Apply(s, i, e), i - 1;
            && Shape(s') && |s'.ranks| == |s.ranks| && s'.ranks[k] == s.ranks[k] && s'.ranks[i] == e.rank
            && s'.msgs[k] == (if e.pop && s.msgs[k] != [] then s.msgs[k][1..] else s.msgs[k])
            && s'.slots[k] == SetFlag(s.slots[k], e.signal, true)
  {
  }

  lemma AdvanceOtherLink(src: seq<Bucket>, left: seq<Flags>, s: Chain, i: nat, e: Effect, k: nat)
    requires LinkAt(src, left, s, k) && i < |s.ranks| && k != i && k + 1 != i
    ensures LinkAt(src, left, Apply(s, i, e), k)
  {
    var s' := Apply(s, i, e);
    assert s'.ranks[k] == s.ranks[k] && s'.ranks[k + 1] == s.ranks[k + 1];
    assert s'.msgs[k] == s.msgs[k] && s'.slots[k] == s.slots[k];
  }

  lemma StepInv(src: seq<Bucket>, left: seq<Flags>, s: Chain, i: nat)
    requires LastFlagged(src) && Inv(src, left, s) && AllHarmless(src, left) && Step(src, s, i).Some?
    ensures Inv(src, left, Step(src, s, i).value)
  {
    var s' := Step(src, s, i).value;
    AdvanceRank(src, left, s, i);
    forall k | 0 <= k < |s.ranks| ensures RankInv(src, k == 0, k < |s.ranks| - 1, s'.ranks[k]) {
      assert RankInv(src, k == 0, k < |s.ranks| - 1, s.ranks[k]);
    }
    forall k | 0 <= k < |s.msgs| ensures LinkAt(src, left, s', k) {
      assert LinkAt(src, left, s, k) && Harmless(src, left[k]) && RankInv(src, i == 0, i < |s.ranks| - 1, s.ranks[i]);
      if k == i {
        AdvanceLeftLink(src, left, s, i);
      } else if k + 1 == i {
        assert RankInv(src, k == 0, k < |s.ranks| - 1, s.ranks[k]);
        AdvanceRightLink(src, left, s, i);
      } else {
        AdvanceOtherLink(src, left, s, i, LocalAt(src, s, i).value, k);
      }
    }
  }

  lemma {:induction false} ExecInv(src: seq<Bucket>, left: seq<Flags>, s: Chain, schedule: seq<nat>)
    requires LastFlagged(src) && Inv(src, left, s) && AllHarmless(src, left) && Exec(src, s, schedule).Some?
    ensures Inv(src, left, Exec(src, s, schedule).value)
    decreases schedule
  {
    if schedule != [] {
      StepInv(src, left, s, schedule[0]);
      ExecInv(src, left, Step(src, s, schedule[0]).value, schedule[1..]);
    }
  }

  lemma ReachableInv(src: seq<Bucket>, left: seq<Flags>, s: Chain)
    requires LastFlagged(src) && AllHarmless(src, left) && Reachable(src, left, s)
    ensures Inv(src, left, s)
  {
    var schedule :| Exec(src, Init(left), schedule) == Some(s);
    InitInv(src, left);
    ExecInv(src, left, Init(left), schedule);
  }

  // ---------- what this means for every interleaving ----------

  lemma NoFault(src: seq<Bucket>, left: seq<Flags>, s: Chain)
    requires LastFlagged(src) && AllHarmless(src, left) && Reachable(src, left, s)
    ensures forall i :: 0 <= i < |s.ranks| ==> s.ranks[i].phase != Faulted
  {
    ReachableInv(src, left, s);
    forall i | 0 <= i < |s.ranks| ensures s.ranks[i].phase != Faulted {
      assert RankInv(src, i == 0, i < |s.ranks| - 1, s.ranks[i]);
    }
  }

  /** Rank i + 1 was told of this half of rank i and has not read all of it. */
  predicate BeingRead(s: Chain, i: nat, h: Half)
    requires Shape(s) && i < |s.msgs|
  {
    var b := s.ranks[i + 1];
    || (exists m :: m in s.msgs[i] && m.half == h)
    || ((b.phase.Credit? || b.phase.Read? || b.phase.Reading?) && b.info.half == h)
  }

  /** No step changes a half that the successor still has to read. */
  ghost predicate NeverOverwrites(src: seq<Bucket>, s: Chain) {
    forall i, h: Half, j :: Shape(s) && 0 <= i < |s.msgs| && BeingRead(s, i, h) && Step(src, s, j).Some? ==>
      s.ranks[i].bufs[h] != Torn && Step(src, s, j).value.ranks[i].bufs[h] == s.ranks[i].bufs[h]
  }

  lemma BeingReadIsLive(src: seq<Bucket>, left: seq<Flags>, s: Chain, i: nat, h: Half)
    requires LastFlagged(src) && Inv(src, left, s) && i < |s.msgs| && BeingRead(s, i, h)
    ensures exists k :: s.ranks[i + 1].idx <= k < Sent(i == 0, s.ranks[i]) && k % 2 == h
                        && HalfHolds(src, s.ranks[i], k)
  {
    var a, b, msgs := s.ranks[i], s.ranks[i + 1], s.msgs[i];
    assert LinkAt(src, left, s, i) && RankInv(src, false, i + 1 < |s.ranks| - 1, b);
    var k := if exists m :: m in msgs && m.half == h
             then (if msgs[0].half == h then Received(b) else Received(b) + 1) else b.idx;
    if m :| m in msgs && m.half == h {
      assert m == msgs[0] || m == msgs[1];
    }
    assert HalfHolds(src, a, k);
  }

  lemma LiveHolds(src: seq<Bucket>, first: bool, a: Rank, b: Rank, msgs: seq<Info>, k: nat)
    requires CountsInv(src, first, a, b, msgs) && HalvesInv(src, first, a, b) && b.idx <= k < Sent(first, a)
    ensures HalfHolds(src, a, k)
  {
    assert k == Sent(first, a) - 1 || k == Sent(first, a) - 2;
  }

  lemma StepKeepsLive(src: seq<Bucket>, left: seq<Flags>, s: Chain, i: nat, k: nat, j: nat)
    requires LastFlagged(src) && Inv(src, left, s) && AllHarmless(src, left) && i < |s.msgs|
    requires s.ranks[i + 1].idx <= k < Sent(i == 0, s.ranks[i]) && Step(src, s, j).Some?
    ensures Step(src, s, j).value.ranks[i].bufs[k % 2] == s.ranks[i].bufs[k % 2]
  {
    if j == i {
      var a, b := s.ranks[i], s.ranks[i + 1];
      var a' := LocalAt(src, s, i).value.rank;
      assert LinkAt(src, left, s, i) && Harmless(src, left[i]) && RankInv(src, i == 0, true, a);
      LeftEnd(src, i == 0, left[i], a, b, s.msgs[i], s.slots[i], Inbox(s, i), Prev(s, i));
      LiveHolds(src, i == 0, a, b, s.msgs[i], k);
      SentGrows(src, i == 0, a, Inbox(s, i), s.slots[i], Prev(s, i));
      var e := LocalAt(src, s, i).value;
      LiveHolds(src, i == 0, a', b, if e.push.Some? then s.msgs[i] + [e.push.value] else s.msgs[i], k);
    }
  }

  lemma SentGrows(src: seq<Bucket>, first: bool, a: Rank, inbox: seq<Info>, slots: Flags, prev: Cells)
    requires RankInv(src, first, true, a) && Local(src, true, a, inbox, slots, prev).Some?
    ensures Sent(first, Local(src, true, a, inbox, slots, prev).value.rank) >= Sent(first, a)
  {
  }

  /** With harmless slots, no rank ever reuses a half too early. */
  lemma HarmlessNeverOverwrites(src: seq<Bucket>, left: seq<Flags>, s: Chain)
    requires LastFlagged(src) && AllHarmless(src, left) && Reachable(src, left, s)
    ensures NeverOverwrites(src, s)
  {
    ReachableInv(src, left, s);
    forall i, h: Half, j | 0 <= i < |s.msgs| && BeingRead(s, i, h) && Step(src, s, j).Some?
      ensures s.ranks[i].bufs[h] != Torn && Step(src, s, j).value.ranks[i].bufs[h] == s.ranks[i].bufs[h]
    {
      BeingReadIsLive(src, left, s, i, h);
      var k :| s.ranks[i + 1].idx <= k < Sent(i == 0, s.ranks[i]) && k % 2 == h && HalfHolds(src, s.ranks[i], k);
      StepKeepsLive(src, left, s, i, k, j);
    }
  }

  lemma ReleasedBySignal(src: seq<Bucket>, first: bool, left: Flags, a: Rank, b: Rank, msgs: seq<Info>, slots: Flags)
    requires LastFlagged(src) && RankInv(src, first, true, a) && Harmless(src, left)
    requires CountsInv(src, first, a, b, msgs) && SlotsInv(first, left, a, b, slots) && slots[a.Current()]
    ensures a.phase.Reuse? || a.phase.Credit? ==> a.idx - 2 < b.idx
    ensures a.phase.Drain? && !left[a.Current()] ==> b.idx == |src|
  {
  }

  /** A wait for a half is released only by the signal for the bucket two back,
      the last wait of rank 0 only by the signal for the last bucket. */
  lemma OwnSignalOnly(src: seq<Bucket>, left: seq<Flags>, s: Chain, i: nat)
    requires LastFlagged(src) && AllHarmless(src, left) && Reachable(src, left, s)
    requires Shape(s) && i < |s.msgs| && Step(src, s, i).Some?
    ensures s.ranks[i].phase.Reuse? || s.ranks[i].phase.Credit? ==> s.ranks[i].idx - 2 < s.ranks[i + 1].idx
    ensures s.ranks[i].phase.Drain? && |left| > i && !left[i][s.ranks[i].Current()] ==> s.ranks[i + 1].idx == |src|
  {
    ReachableInv(src, left, s);
    assert LinkAt(src, left, s, i) && RankInv(src, i == 0, true, s.ranks[i]) && Harmless(src, left[i]);
    var r := s.ranks[i];
    if r.phase.Reuse? || r.phase.Credit? || r.phase.Drain? {
      ReleasedBySignal(src, i == 0, left[i], s.ranks[i], s.ranks[i + 1], s.msgs[i], s.slots[i]);
    }
  }
}
