/** Signals left over in the slots of the Mooncake chain: unless they are harmless,
    some interleaving reuses a half too early. The interleaving moves the ranks in
    lockstep, bucket by bucket, up to the rank whose slot is stale. */
module MooncakeStale {
  import opened Buckets
  import opened MooncakeChain
  import opened MooncakeSafety
  import opened Wrappers

  ghost predicate Reaches(src: seq<Bucket>, s: Chain, s': Chain) {
    exists schedule :: Exec(src, s, schedule) == Some(s')
  }

  lemma {:induction false} ExecConcat(src: seq<Bucket>, s: Chain, a: seq<nat>, b: seq<nat>)
    requires Exec(src, s, a).Some?
    ensures Exec(src, s, a + b) == Exec(src, Exec(src, s, a).value, b)
    decreases a
  {
    if a == [] {
      assert a + b == b;
    } else {
      assert (a + b)[0] == a[0] && (a + b)[1..] == a[1..] + b;
      ExecConcat(src, Step(src, s, a[0]).value, a[1..], b);
    }
  }

  lemma ReachesThen(src: seq<Bucket>, s: Chain, s': Chain, s'': Chain)
    requires Reaches(src, s, s') && Reaches(src, s', s'')
    ensures Reaches(src, s, s'')
  {
    var a :| Exec(src, s, a) == Some(s');
    var b :| Exec(src, s', b) == Some(s'');
    ExecConcat(src, s, a, b);
    assert Exec(src, s, a + b) == Some(s'');
  }

  lemma ReachesSelf(src: seq<Bucket>, s: Chain)
    ensures Reaches(src, s, s)
  {
    assert Exec(src, s, []) == Some(s);
  }

  lemma ReachesStep(src: seq<Bucket>, s: Chain, q: nat)
    requires Step(src, s, q).Some?
    ensures Reaches(src, s, Step(src, s, q).value)
  {
    assert [q][1..] == [];
    assert Exec(src, s, [q]) == Some(Step(src, s, q).value);
  }

  // ---------- one rank running alone ----------

  /** What a rank can change: itself, its inbox and outbox, its own slots and those
      of its predecessor. */
  datatype Solo = Solo(rank: Rank, inbox: seq<Info>, outbox: seq<Info>, own: Flags, prevs: Flags)

  function SoloOf(s: Chain, q: nat): Solo
    requires Shape(s) && q < |s.ranks|
  {
    Solo(s.ranks[q], Inbox(s, q), if q < |s.msgs| then s.msgs[q] else [], s.slots[q],
         if q == 0 then [false, false] else s.slots[q - 1])
  }

  /** The chain with the parts of rank q replaced. */
  function With(s: Chain, q: nat, x: Solo): Chain
    requires Shape(s) && q < |s.ranks|
  {
    var msgs1 := if q == 0 then s.msgs else s.msgs[q - 1 := x.inbox];
    var msgs2 := if q < |s.msgs| then msgs1[q := x.outbox] else msgs1;
    var slots1 := if q == 0 then s.slots else s.slots[q - 1 := x.prevs];
    Chain(s.ranks[q := x.rank], msgs2, slots1[q := x.own])
  }

  function SoloNext(src: seq<Bucket>, first: bool, hasNext: bool, prev: Cells, x: Solo): Option<Solo> {
    var e := Local(src, hasNext, x.rank, if first then [] else x.inbox, x.own, prev);
    if e.None? then None else
      Some(Solo(e.value.rank,
                if e.value.pop && !first && x.inbox != [] then x.inbox[1..] else x.inbox,
                if e.value.push.Some? && hasNext then x.outbox + [e.value.push.value] else x.outbox,
                SetFlag(x.own, e.value.clear, false),
                if first then x.prevs else SetFlag(x.prevs, e.value.signal, true)))
  }

  lemma WithSelf(s: Chain, q: nat)
    requires Shape(s) && q < |s.ranks|
    ensures With(s, q, SoloOf(s, q)) == s
  {
  }

  lemma SoloStep(src: seq<Bucket>, s: Chain, q: nat, x: Solo)
    requires Shape(s) && q < |s.ranks|
    requires SoloNext(src, q == 0, q < |s.ranks| - 1, Prev(s, q), x).Some?
    ensures Step(src, With(s, q, x), q)
              == Some(With(s, q, SoloNext(src, q == 0, q < |s.ranks| - 1, Prev(s, q), x).value))
  {
    var t, n := With(s, q, x), |s.ranks|;
    assert Shape(t) && t.ranks[q] == x.rank && t.slots[q] == x.own && Prev(t, q) == Prev(s, q);
    assert Inbox(t, q) == if q == 0 then [] else x.inbox;
    var e := LocalAt(src, t, q).value;
    assert LocalAt(src, t, q) == Local(src, q < n - 1, x.rank, if q == 0 then [] else x.inbox, x.own, Prev(s, q));
    SoloApply(src, s, q, x, e);
  }

  lemma SoloApply(src: seq<Bucket>, s: Chain, q: nat, x: Solo, e: Effect)
    requires Shape(s) && q < |s.ranks| && Shape(With(s, q, x))
    ensures Apply(With(s, q, x), q, e)
            == With(s, q, Solo(e.rank,
                               if e.pop && q != 0 && x.inbox != [] then x.inbox[1..] else x.inbox,
                               if e.push.Some? && q < |s.msgs| then x.outbox + [e.push.value] else x.outbox,
                               SetFlag(x.own, e.clear, false),
                               if q == 0 then x.prevs else SetFlag(x.prevs, e.signal, true)))
  {
  }

  /** x' comes after x when rank q runs alone in s. */
  ghost predicate Runs(src: seq<Bucket>, s: Chain, q: nat, x: Solo, x': Solo)
    requires Shape(s) && q < |s.ranks|
  {
    Reaches(src, With(s, q, x), With(s, q, x'))
  }

  lemma RunsNext(src: seq<Bucket>, s: Chain, q: nat, x: Solo, x': Solo, x'': Solo)
    requires Shape(s) && q < |s.ranks| && Runs(src, s, q, x, x')
    requires SoloNext(src, q == 0, q < |s.ranks| - 1, Prev(s, q), x') == Some(x'')
    ensures Runs(src, s, q, x, x'')
  {
    SoloStep(src, s, q, x');
    ReachesStep(src, With(s, q, x'), q);
    ReachesThen(src, With(s, q, x), With(s, q, x'), With(s, q, x''));
  }

  // ---------- one rank handles one bucket ----------

  /** The rank is about to handle bucket d, or has handled all buckets. */
  predicate At(src: seq<Bucket>, r: Rank, first: bool, d: nat) {
    if d >= |src| then (if first then r.phase == Drain && r.idx == |src| - 1 else r.phase == Done)
    else if !first then r.phase == Recv && !r.shouldWait && r.idx == d
    else if d <= 1 then r.phase == Fill && (r.shouldWait <==> d == 1) && r.idx == d
    else r.phase == Reuse && r.shouldWait && r.idx == d
  }

  /** The rank can handle bucket b without its successor doing anything. */
  predicate CanHandle(src: seq<Bucket>, first: bool, hasNext: bool, prev: Cells, x: Solo, b: nat) {
    && b < |src| && At(src, x.rank, first, b)
    && (!first ==> x.inbox != [] && x.inbox[0] == InfoOf(src, b) && prev[b % 2].Whole?)
    && (b >= 2 && hasNext ==> x.own[b % 2])
  }

  /** x' is x after handling bucket b. */
  predicate Handled(src: seq<Bucket>, first: bool, hasNext: bool, x: Solo, x': Solo, b: nat)
    requires b < |src|
  {
    && At(src, x'.rank, first, b + 1) && x'.rank.bufs[b % 2].Whole?
    && x'.inbox == (if first || x.inbox == [] then x.inbox else x.inbox[1..])
    && x'.outbox == (if hasNext then x.outbox + [InfoOf(src, b)] else x.outbox)
    && x'.own == (if b >= 2 && hasNext then x.own[b % 2 := false] else x.own)
    && x'.prevs == (if first then x.prevs else x.prevs[b % 2 := true])
  }

  lemma RunFill(src: seq<Bucket>, s: Chain, x: Solo, y: Solo, b: nat) returns (z: Solo)
    requires Shape(s) && LastFlagged(src) && b < |src| && Runs(src, s, 0, x, y)
    requires y.rank.phase == Fill && y.rank.idx == b && (y.rank.shouldWait <==> b > 0)
    ensures Runs(src, s, 0, x, z) && At(src, z.rank, true, b + 1) && z.rank.bufs[b % 2].Whole?
    ensures z.inbox == y.inbox && z.outbox == y.outbox + [InfoOf(src, b)] && z.own == y.own && z.prevs == y.prevs
  {
    var y1 := SoloNext(src, true, true, Prev(s, 0), y).value;
    RunsNext(src, s, 0, x, y, y1);
    assert y1 == y.(rank := y.rank.(phase := Send, bufs := y.rank.bufs[b % 2 := Whole(src[b].bytes)]));
    z := RunSend(src, s, x, y1, b);
  }

  lemma RunSend(src: seq<Bucket>, s: Chain, x: Solo, y: Solo, b: nat) returns (z: Solo)
    requires Shape(s) && LastFlagged(src) && b < |src| && Runs(src, s, 0, x, y)
    requires y.rank.phase == Send && y.rank.idx == b && (y.rank.shouldWait <==> b > 0) && y.rank.bufs[b % 2].Whole?
    ensures Runs(src, s, 0, x, z) && At(src, z.rank, true, b + 1) && z.rank.bufs[b % 2].Whole?
    ensures z.inbox == y.inbox && z.outbox == y.outbox + [InfoOf(src, b)] && z.own == y.own && z.prevs == y.prevs
  {
    z := SoloNext(src, true, true, Prev(s, 0), y).value;
    RunsNext(src, s, 0, x, y, z);
  }

  lemma RunFirst(src: seq<Bucket>, s: Chain, x: Solo, b: nat) returns (x': Solo)
    requires Shape(s) && LastFlagged(src) && CanHandle(src, true, true, Prev(s, 0), x, b)
    ensures Runs(src, s, 0, x, x') && Handled(src, true, true, x, x', b)
  {
    ReachesSelf(src, With(s, 0, x));
    if b >= 2 {
      var y := SoloNext(src, true, true, Prev(s, 0), x).value;
      RunsNext(src, s, 0, x, x, y);
      x' := RunFill(src, s, x, y, b);
    } else {
      x' := RunFill(src, s, x, x, b);
    }
  }

  /** From the j-th tensor of a bucket to the signal. */
  lemma {:induction false} RunYields(src: seq<Bucket>, s: Chain, q: nat, x: Solo, y: Solo, j: nat) returns (z: Solo)
    requires Shape(s) && 0 < q < |s.ranks| && Runs(src, s, q, x, y)
    requires y.rank.phase == Yield(j) && j <= |y.rank.info.bucketMeta| && y.rank.bufs[y.rank.Current()].Whole?
    ensures Runs(src, s, q, x, z) && z.rank.phase == Signal
              && z == y.(rank := y.rank.(phase := Signal, out := z.rank.out))
    decreases |y.rank.info.bucketMeta| - j
  {
    var next := SoloNext(src, false, q < |s.ranks| - 1, Prev(s, q), y).value;
    RunsNext(src, s, q, x, y, next);
    if j < |y.rank.info.bucketMeta| {
      z := RunYields(src, s, q, x, next, j + 1);
    } else {
      z := next;
    }
  }

  lemma RunRecv(src: seq<Bucket>, s: Chain, q: nat, x: Solo, b: nat) returns (y: Solo)
    requires Shape(s) && 0 < q < |s.ranks| && b < |src| && At(src, x.rank, false, b)
    requires x.inbox != [] && x.inbox[0] == InfoOf(src, b)
    ensures Runs(src, s, q, x, y)
    ensures y == x.(rank := x.rank.(phase := if b >= 2 && q < |s.ranks| - 1 then Credit else Read,
                                      info := InfoOf(src, b)),
                    inbox := x.inbox[1..])
  {
    ReachesSelf(src, With(s, q, x));
    y := SoloNext(src, false, q < |s.ranks| - 1, Prev(s, q), x).value;
    RunsNext(src, s, q, x, x, y);
  }

  lemma RunCredit(src: seq<Bucket>, s: Chain, q: nat, x: Solo, y: Solo, b: nat) returns (z: Solo)
    requires Shape(s) && 0 < q < |s.ranks| && Runs(src, s, q, x, y)
    requires y.rank.phase == Credit && y.rank.idx == b && y.own[b % 2]
    ensures Runs(src, s, q, x, z) && z == y.(rank := y.rank.(phase := Read), own := y.own[b % 2 := false])
  {
    z := SoloNext(src, false, q < |s.ranks| - 1, Prev(s, q), y).value;
    RunsNext(src, s, q, x, y, z);
  }

  /** Up to the start of the read. */
  lemma RunToRead(src: seq<Bucket>, s: Chain, q: nat, x: Solo, b: nat) returns (y: Solo)
    requires Shape(s) && 0 < q < |s.ranks| && b < |src| && At(src, x.rank, false, b)
    requires x.inbox != [] && x.inbox[0] == InfoOf(src, b) && (b >= 2 && q < |s.ranks| - 1 ==> x.own[b % 2])
    ensures Runs(src, s, q, x, y)
    ensures y == Solo(x.rank.(phase := Read, info := InfoOf(src, b)), x.inbox[1..], x.outbox,
                      if b >= 2 && q < |s.ranks| - 1 then x.own[b % 2 := false] else x.own, x.prevs)
  {
    y := RunRecv(src, s, q, x, b);
    if b >= 2 && q < |s.ranks| - 1 {
      y := RunCredit(src, s, q, x, y, b);
    }
  }

  /** The read itself. */
  lemma RunRead(src: seq<Bucket>, s: Chain, q: nat, x: Solo, y: Solo, b: nat) returns (z: Solo)
    requires Shape(s) && 0 < q < |s.ranks| && b < |src| && Runs(src, s, q, x, y)
    requires y.rank.phase == Read && y.rank.idx == b && y.rank.info == InfoOf(src, b)
    ensures Runs(src, s, q, x, z)
    ensures z == y.(rank := y.rank.(phase := Forward, bufs := y.rank.bufs[b % 2 := Prev(s, q)[b % 2]]))
  {
    var hasNext := q < |s.ranks| - 1;
    var y1 := SoloNext(src, false, hasNext, Prev(s, q), y).value;
    RunsNext(src, s, q, x, y, y1);
    assert y1 == y.(rank := y.rank.(phase := Reading, bufs := y.rank.bufs[b % 2 := Torn]));
    z := SoloNext(src, false, hasNext, Prev(s, q), y1).value;
    RunsNext(src, s, q, x, y1, z);
  }

  /** The message to the successor. */
  lemma RunForward(src: seq<Bucket>, s: Chain, q: nat, x: Solo, y: Solo, b: nat) returns (z: Solo)
    requires Shape(s) && 0 < q < |s.ranks| && b < |src| && Runs(src, s, q, x, y)
    requires y.rank.phase == Forward && y.rank.idx == b && y.rank.info == InfoOf(src, b)
    ensures Runs(src, s, q, x, z)
    ensures z == y.(rank := y.rank.(phase := Yield(0)),
                    outbox := if q < |s.ranks| - 1 then y.outbox + [InfoOf(src, b)] else y.outbox)
  {
    z := SoloNext(src, false, q < |s.ranks| - 1, Prev(s, q), y).value;
    RunsNext(src, s, q, x, y, z);
  }

  lemma RunSignal(src: seq<Bucket>, s: Chain, q: nat, x: Solo, z: Solo, b: nat) returns (x': Solo)
    requires Shape(s) && LastFlagged(src) && 0 < q < |s.ranks| && b < |src| && Runs(src, s, q, x, z)
    requires z.rank.phase == Signal && z.rank.idx == b && z.rank.info == InfoOf(src, b)
    ensures Runs(src, s, q, x, x')
    ensures x' == z.(rank := z.rank.(phase := if b + 1 == |src| then Done else Recv, idx := b + 1),
                     prevs := z.prevs[b % 2 := true])
  {
    x' := SoloNext(src, false, q < |s.ranks| - 1, Prev(s, q), z).value;
    RunsNext(src, s, q, x, z, x');
  }

  lemma RunOther(src: seq<Bucket>, s: Chain, q: nat, x: Solo, b: nat) returns (x': Solo)
    requires Shape(s) && LastFlagged(src) && 0 < q < |s.ranks|
    requires CanHandle(src, false, q < |s.ranks| - 1, Prev(s, q), x, b)
    ensures Runs(src, s, q, x, x') && Handled(src, false, q < |s.ranks| - 1, x, x', b)
  {
    var y := RunToRead(src, s, q, x, b);
    var y1 := RunRead(src, s, q, x, y, b);
    var y2 := RunForward(src, s, q, x, y1, b);
    var z := RunYields(src, s, q, x, y2, 0);
    x' := RunSignal(src, s, q, x, z, b);
  }

  lemma Run(src: seq<Bucket>, s: Chain, q: nat, b: nat) returns (x': Solo)
    requires Shape(s) && LastFlagged(src) && q < |s.ranks|
    requires CanHandle(src, q == 0, q < |s.ranks| - 1, Prev(s, q), SoloOf(s, q), b)
    ensures Reaches(src, s, With(s, q, x')) && Handled(src, q == 0, q < |s.ranks| - 1, SoloOf(s, q), x', b)
  {
    WithSelf(s, q);
    if q == 0 {
      x' := RunFirst(src, s, SoloOf(s, q), b);
    } else {
      x' := RunOther(src, s, q, SoloOf(s, q), b);
    }
  }

  // ---------- the lockstep ----------

  /** Buckets handled by rank k when ranks 0 to q - 1 have handled bucket b and the others not yet. */
  function HandledBy(k: nat, b: nat, q: nat): nat {
    if k < q then b + 1 else b
  }

  predicate RankOk(src: seq<Bucket>, s: Chain, k: nat, d: nat)
    requires k < |s.ranks|
  {
    At(src, s.ranks[k], k == 0, d) && (d > 0 ==> s.ranks[k].bufs[(d - 1) % 2].Whole?)
  }

  /** Between rank k, which handled d buckets, and its successor, which handled e: the
      metadata in between and the signals not yet waited for. */
  predicate LinkOk(src: seq<Bucket>, s: Chain, k: nat, d: nat, e: nat)
    requires k < |s.msgs| && k < |s.slots|
  {
    && e <= d <= e + 1 && d <= |src|
    && s.msgs[k] == (if d == e then [] else [InfoOf(src, e)])
    && (e >= 1 ==> s.slots[k][(e - 1) % 2])
    && (e >= 2 && d == e ==> s.slots[k][(e - 2) % 2])
  }

  function Infos(src: seq<Bucket>, e: nat, d: nat): seq<Info>
    requires d <= |src|
  {
    if e >= d then [] else Infos(src, e, d - 1) + [InfoOf(src, d - 1)]
  }

  /** Between rank i, which handled d buckets and has a stale signal in slot h, and its
      successor, which handled e and then stopped. */
  predicate EndOk(src: seq<Bucket>, s: Chain, i: nat, h: Half, d: nat, e: nat)
    requires i + 1 < |s.ranks| && i < |s.msgs| && i < |s.slots|
  {
    && e <= 1 && e <= d <= |src| && At(src, s.ranks[i + 1], false, e)
    && s.msgs[i] == Infos(src, e, d)
    && s.slots[i][h] && (e == 1 && d <= 2 ==> s.slots[i][0])
  }

  predicate RankTurn(src: seq<Bucket>, s: Chain, k: nat, b: nat, q: nat)
    requires k < |s.ranks|
  {
    RankOk(src, s, k, HandledBy(k, b, q))
  }

  predicate LinkTurn(src: seq<Bucket>, s: Chain, k: nat, b: nat, q: nat)
    requires k < |s.msgs| && k < |s.slots|
  {
    LinkOk(src, s, k, HandledBy(k, b, q), HandledBy(k + 1, b, q))
  }

  predicate Lock(src: seq<Bucket>, s: Chain, i: nat, h: Half, b: nat, q: nat, e: nat) {
    && Shape(s) && i + 1 < |s.ranks| && q <= i + 1 && LastFlagged(src)
    && (forall k :: 0 <= k <= i ==> RankTurn(src, s, k, b, q)) && (forall k :: 0 <= k < i ==> LinkTurn(src, s, k, b, q))
    && EndOk(src, s, i, h, HandledBy(i, b, q), e)
  }

  lemma LockInit(src: seq<Bucket>, left: seq<Flags>, i: nat, h: Half)
    requires LastFlagged(src) && i + 1 < |left| && left[i][h]
    ensures Lock(src, Init(left), i, h, 0, 0, 0)
  {
    var s := Init(left);
    forall k | 0 <= k <= i ensures RankTurn(src, s, k, 0, 0) {
      assert s.ranks[k] == InitRank(k == 0);
    }
    assert s.ranks[i + 1] == InitRank(false);
  }

  /** All ranks up to i have handled bucket b. */
  lemma NextRound(src: seq<Bucket>, s: Chain, i: nat, h: Half, b: nat, next: nat, e: nat)
    requires Lock(src, s, i, h, b, i + 1, e) && next == b + 1
    ensures Lock(src, s, i, h, next, 0, e)
  {
    forall k | 0 <= k <= i ensures RankTurn(src, s, k, next, 0) {
      assert RankTurn(src, s, k, b, i + 1);
    }
    forall k | 0 <= k < i ensures LinkTurn(src, s, k, next, 0) {
      assert LinkTurn(src, s, k, b, i + 1);
    }
  }

  /** Rank q can take its turn; rank i from bucket 2 on only with a signal in the slot. */
  lemma Ready(src: seq<Bucket>, s: Chain, i: nat, h: Half, b: nat, q: nat, e: nat)
    requires Lock(src, s, i, h, b, q, e) && q <= i && b < |src| && (q == i && b >= 2 ==> s.slots[i][b % 2])
    ensures CanHandle(src, q == 0, q < |s.ranks| - 1, Prev(s, q), SoloOf(s, q), b)
  {
    assert RankTurn(src, s, q, b, q);
    if q > 0 {
      assert LinkTurn(src, s, q - 1, b, q) && RankTurn(src, s, q - 1, b, q);
    }
    if q < i {
      assert LinkTurn(src, s, q, b, q);
    }
  }

  /** The link before rank q after q's turn. */
  lemma LinkBefore(src: seq<Bucket>, s: Chain, q: nat, x: Solo, b: nat)
    requires Shape(s) && 0 < q < |s.ranks| && b < |src| && LinkOk(src, s, q - 1, b + 1, b)
    requires Handled(src, false, q < |s.ranks| - 1, SoloOf(s, q), x, b)
    ensures LinkOk(src, With(s, q, x), q - 1, b + 1, b + 1)
  {
    var t := With(s, q, x);
    assert t.msgs[q - 1] == x.inbox && t.slots[q - 1] == x.prevs;
  }

  /** The link after rank q after q's turn. */
  lemma LinkAfter(src: seq<Bucket>, s: Chain, q: nat, x: Solo, b: nat)
    requires Shape(s) && q + 1 < |s.ranks| && b < |src| && LinkOk(src, s, q, b, b)
    requires Handled(src, q == 0, true, SoloOf(s, q), x, b)
    ensures LinkOk(src, With(s, q, x), q, b + 1, b)
  {
    var t := With(s, q, x);
    assert t.msgs[q] == x.outbox && t.slots[q] == x.own;
  }

  lemma EndAfter(src: seq<Bucket>, s: Chain, i: nat, h: Half, x: Solo, b: nat, e: nat)
    requires Shape(s) && i + 1 < |s.ranks| && b < |src| && EndOk(src, s, i, h, b, e) && b <= h + 1
    requires Handled(src, i == 0, true, SoloOf(s, i), x, b)
    ensures EndOk(src, With(s, i, x), i, h, b + 1, e)
  {
    var t := With(s, i, x);
    assert t.msgs[i] == x.outbox && t.slots[i] == x.own && t.ranks[i + 1] == s.ranks[i + 1];
  }

  lemma RanksAfter(src: seq<Bucket>, s: Chain, i: nat, h: Half, b: nat, q: nat, next: nat, e: nat, x: Solo, k: nat)
    requires Lock(src, s, i, h, b, q, e) && q <= i && b < |src| && next == q + 1 && k <= i
    requires Handled(src, q == 0, q < |s.ranks| - 1, SoloOf(s, q), x, b)
    ensures RankTurn(src, With(s, q, x), k, b, next)
  {
    assert RankTurn(src, s, k, b, q);
  }

  lemma LinksAfter(src: seq<Bucket>, s: Chain, i: nat, h: Half, b: nat, q: nat, next: nat, e: nat, x: Solo, k: nat)
    requires Lock(src, s, i, h, b, q, e) && q <= i && b < |src| && next == q + 1 && k < i
    requires Handled(src, q == 0, q < |s.ranks| - 1, SoloOf(s, q), x, b)
    ensures LinkTurn(src, With(s, q, x), k, b, next)
  {
    assert LinkTurn(src, s, k, b, q);
    if k + 1 == q {
      LinkBefore(src, s, q, x, b);
    } else if k == q {
      LinkAfter(src, s, q, x, b);
    } else {
      LinkKept(src, s, With(s, q, x), k, HandledBy(k, b, q), HandledBy(k + 1, b, q));
    }
  }

  lemma LinkKept(src: seq<Bucket>, s: Chain, t: Chain, k: nat, d: nat, e: nat)
    requires k < |s.msgs| && k < |s.slots| && k < |t.msgs| && k < |t.slots| && LinkOk(src, s, k, d, e)
    requires t.msgs[k] == s.msgs[k] && t.slots[k] == s.slots[k]
    ensures LinkOk(src, t, k, d, e)
  {
  }

  lemma EndStays(src: seq<Bucket>, s: Chain, i: nat, h: Half, b: nat, q: nat, next: nat, e: nat, x: Solo)
    requires Lock(src, s, i, h, b, q, e) && q <= i && b < |src| && next == q + 1 && (q == i ==> b <= h + 1)
    requires Handled(src, q == 0, q < |s.ranks| - 1, SoloOf(s, q), x, b)
    ensures EndOk(src, With(s, q, x), i, h, HandledBy(i, b, next), e)
  {
    if q == i {
      EndAfter(src, s, i, h, x, b, e);
    } else {
      var t := With(s, q, x);
      assert t.msgs[i] == s.msgs[i] && t.slots[i] == s.slots[i] && t.ranks[i + 1] == s.ranks[i + 1];
    }
  }

  /** The turn of rank q. */
  lemma Turn(src: seq<Bucket>, s: Chain, i: nat, h: Half, b: nat, q: nat, next: nat, e: nat) returns (s': Chain)
    requires Lock(src, s, i, h, b, q, e) && q <= i && b < |src| && next == q + 1
    requires q == i ==> b <= h + 1 && (b >= 2 ==> s.slots[i][b % 2])
    ensures Reaches(src, s, s') && Lock(src, s', i, h, b, next, e) && |s'.ranks| == |s.ranks|
  {
    Ready(src, s, i, h, b, q, e);
    var x := Run(src, s, q, b);
    s' := With(s, q, x);
    forall k | 0 <= k <= i ensures RankTurn(src, s', k, b, next) {
      RanksAfter(src, s, i, h, b, q, next, e, x, k);
    }
    forall k | 0 <= k < i ensures LinkTurn(src, s', k, b, next) {
      LinksAfter(src, s, i, h, b, q, next, e, x, k);
    }
    EndStays(src, s, i, h, b, q, next, e, x);
  }

  lemma LastReady(src: seq<Bucket>, s: Chain, i: nat, h: Half, b: nat, q: nat, e: nat)
    requires Lock(src, s, i, h, b, q, e) && q <= i
    ensures q == i && b == 2 && e == 1 ==> s.slots[i][b % 2]
  {
  }

  /** The turns of ranks q to last - 1. */
  lemma {:induction false} Turns(src: seq<Bucket>, s: Chain, i: nat, h: Half, b: nat, q: nat, last: nat, e: nat)
    returns (s': Chain)
    requires Lock(src, s, i, h, b, q, e) && q <= last <= i + 1 && b < |src|
    requires last == i + 1 ==> b <= h + 1 && (b >= 2 ==> h == 1 && e == 1)
    ensures Reaches(src, s, s') && Lock(src, s', i, h, b, last, e) && |s'.ranks| == |s.ranks|
    decreases last - q
  {
    s' := s;
    ReachesSelf(src, s);
    if q < last {
      LastReady(src, s, i, h, b, q, e);
      var t := Turn(src, s, i, h, b, q, q + 1, e);
      s' := Turns(src, t, i, h, b, q + 1, last, e);
      ReachesThen(src, s, t, s');
    }
  }

  /** A whole round. */
  lemma Round(src: seq<Bucket>, s: Chain, i: nat, h: Half, b: nat, next: nat, e: nat) returns (s': Chain)
    requires Lock(src, s, i, h, b, 0, e) && b < |src| && b <= h + 1 && (b >= 2 ==> h == 1 && e == 1) && next == b + 1
    ensures Reaches(src, s, s') && Lock(src, s', i, h, next, 0, e) && |s'.ranks| == |s.ranks|
  {
    s' := Turns(src, s, i, h, b, 0, i + 1, e);
    NextRound(src, s', i, h, b, next, e);
  }

  /** The successor of rank i handles the first bucket and stops. */
  lemma SuccessorOnce(src: seq<Bucket>, s: Chain, i: nat) returns (s': Chain)
    requires Lock(src, s, i, 1, 1, 0, 0)
    ensures Reaches(src, s, s') && Lock(src, s', i, 1, 1, 0, 1) && |s'.ranks| == |s.ranks|
  {
    var q := i + 1;
    assert RankTurn(src, s, i, 1, 0);
    FirstInfo(src);
    var x := Run(src, s, q, 0);
    s' := With(s, q, x);
    assert s'.msgs[i] == x.inbox == [] && s'.slots[i] == x.prevs == s.slots[i][0 := true];
    forall k | 0 <= k <= i ensures RankTurn(src, s', k, 1, 0) {
      assert RankTurn(src, s, k, 1, 0) && s'.ranks[k] == s.ranks[k];
    }
    forall k | 0 <= k < i ensures LinkTurn(src, s', k, 1, 0) {
      assert LinkTurn(src, s, k, 1, 0) && s'.msgs[k] == s.msgs[k] && s'.slots[k] == s.slots[k];
    }
  }

  lemma FirstInfo(src: seq<Bucket>)
    requires src != []
    ensures Infos(src, 0, 1) == [InfoOf(src, 0)] && Infos(src, 1, 1) == []
  {
    assert Infos(src, 0, 0) == [];
  }

  /** Rank i is about to reuse half h for bucket h + 2, while its successor has not
      been told of bucket h's read, and the only signal in the slot is the stale one. */
  lemma ToTheEdge(src: seq<Bucket>, left: seq<Flags>, i: nat, h: Half) returns (s: Chain, e: nat)
    requires LastFlagged(src) && i + 1 < |left| && left[i][h] && h + 2 < |src|
    ensures Reaches(src, Init(left), s) && Lock(src, s, i, h, h + 2, i, e) && e == h && |s.ranks| == |left|
  {
    var s0 := Init(left);
    LockInit(src, left, i, h);
    var s1 := Round(src, s0, i, h, 0, 1, 0);
    e := 0;
    s := s1;
    if h == 1 {
      s := SuccessorOnce(src, s1, i);
      ReachesThen(src, s0, s1, s);
      e := 1;
    }
    var s2 := Round(src, s, i, h, 1, 2, e);
    ReachesThen(src, s0, s, s2);
    s := s2;
    if h == 1 {
      s := Round(src, s2, i, h, 2, 3, e);
      ReachesThen(src, s0, s2, s);
    }
    var t := Turns(src, s, i, h, h + 2, 0, i, e);
    ReachesThen(src, s0, s, t);
    s := t;
  }

  lemma HalfAnnounced(src: seq<Bucket>, h: Half)
    requires h + 2 < |src|
    ensures Infos(src, h, h + 2) == [InfoOf(src, h), InfoOf(src, h + 1)]
  {
    assert Infos(src, h, h) == [] && Infos(src, h, h + 1) == [InfoOf(src, h)];
  }

  /** Half h of rank i holds a bucket that the successor still has to read, and the next
      step of rank i tears it. */
  ghost predicate OnTheEdge(src: seq<Bucket>, s: Chain, i: nat, h: Half) {
    && Shape(s) && i < |s.msgs| && BeingRead(s, i, h) && Step(src, s, i).Some?
    && Step(src, s, i).value.ranks[i].bufs[h] == Torn
  }

  lemma EdgeOverwrites(src: seq<Bucket>, s: Chain, i: nat, h: Half)
    requires OnTheEdge(src, s, i, h)
    ensures !NeverOverwrites(src, s)
  {
  }

  lemma FirstOverwrites(src: seq<Bucket>, s: Chain, h: Half)
    requires Lock(src, s, 0, h, h + 2, 0, h) && h + 2 < |src|
    ensures OnTheEdge(src, s, 0, h)
  {
    assert RankTurn(src, s, 0, h + 2, 0);
    HalfAnnounced(src, h);
    assert InfoOf(src, h) in s.msgs[0];
  }

  lemma OtherOverwrites(src: seq<Bucket>, s: Chain, i: nat, h: Half) returns (s': Chain)
    requires Lock(src, s, i, h, h + 2, i, h) && h + 2 < |src| && i > 0
    ensures Reaches(src, s, s') && OnTheEdge(src, s', i, h)
  {
    assert RankTurn(src, s, i, h + 2, i) && LinkTurn(src, s, i - 1, h + 2, i);
    HalfAnnounced(src, h);
    var y := RunToRead(src, s, i, SoloOf(s, i), h + 2);
    s' := With(s, i, y);
    WithSelf(s, i);
    assert s'.msgs[i] == s.msgs[i] && InfoOf(src, h) in s'.msgs[i];
    ReadTears(src, s, i, y, h);
  }

  lemma ReadTears(src: seq<Bucket>, s: Chain, i: nat, y: Solo, h: Half)
    requires Shape(s) && 0 < i < |s.msgs| && y.rank.phase == Read && y.rank.Current() == h
    ensures Step(src, With(s, i, y), i).Some? && Step(src, With(s, i, y), i).value.ranks[i].bufs[h] == Torn
  {
    SoloStep(src, s, i, y);
  }

  /** A signal that is not harmless lets a half be overwritten before it is read. */
  lemma StaleOverwrites(src: seq<Bucket>, left: seq<Flags>, i: nat, h: Half) returns (s: Chain)
    requires LastFlagged(src) && i + 1 < |left| && left[i][h] && h + 2 < |src|
    ensures Reachable(src, left, s) && !NeverOverwrites(src, s)
  {
    var edge, e := ToTheEdge(src, left, i, h);
    if i == 0 {
      FirstOverwrites(src, edge, h);
      s := edge;
    } else {
      s := OtherOverwrites(src, edge, i, h);
      ReachesThen(src, Init(left), edge, s);
    }
    EdgeOverwrites(src, s, i, h);
  }

  /** No rank ever reuses a half too early, over all interleavings, if and only if the
      slots are harmless: no stale signal lies in a slot that is waited on before the
      last bucket. */
  lemma SafeIffHarmless(src: seq<Bucket>, left: seq<Flags>)
    requires LastFlagged(src) && |left| >= 2
    ensures (forall s :: Reachable(src, left, s) ==> NeverOverwrites(src, s)) <==> AllHarmless(src, left)
  {
    if AllHarmless(src, left) {
      forall s | Reachable(src, left, s) ensures NeverOverwrites(src, s) {
        HarmlessNeverOverwrites(src, left, s);
      }
    } else {
      var i :| 0 <= i < |left| - 1 && !Harmless(src, left[i]);
      var s := StaleOverwrites(src, left, i, if left[i][0] && |src| > 2 then 0 else 1);
    }
  }
}
