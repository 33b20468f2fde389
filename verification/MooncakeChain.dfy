/** The Mooncake chain (verl/checkpoint_engine/mooncake_checkpoint_engine.py):
    again rank i + 1 reads the two half-buffers of rank i, but a rank learns that
    a half may be reused from a magic signal that its successor writes into one
    of two slots. A slot is cleared only when it is waited on.

    `Advance(i)` is the next step of rank i up to its next wait. A half-buffer is
    torn while it is being filled or read into. */
module MooncakeChain {
  import opened Buckets
  import opened WeightChunks
  import opened Wrappers

  type Half = h: nat | h < 2

  datatype Cell = Torn | Whole(bytes: seq<byte>)

  type Cells = s: seq<Cell> | |s| == 2 witness [Torn, Torn]

  type Flags = s: seq<bool> | |s| == 2 witness [false, false]

  /** The info dictionary: `half` stands for ptr and magic_ptr, which belong together. */
  datatype Info = Info(half: Half, bucketMeta: seq<Placed>, isLast: bool)

  datatype Phase =
    // send_weights, rank 0
    | Fill     // copying tensors into the current half
    | Send     // about to send the metadata of the filled half
    | Reuse    // waiting until the next half may be filled again
    | Drain    // waiting for the signal of the last bucket
    // receive_weights, other ranks
    | Recv     // waiting for the predecessor's next metadata
    | Credit   // waiting until the current half may be overwritten
    | Read     // about to start the read from the predecessor
    | Reading
    | Forward  // about to send the metadata to the successor
    | Yield(next: nat)
    | Signal   // about to write the magic to the predecessor's slot
    | Done
    | Faulted  // a torn half was yielded

  /** `idx` is the number of the bucket a rank is working on, and its half is idx % 2. */
  datatype Rank = Rank(phase: Phase, bufs: Cells, idx: nat, shouldWait: bool, info: Info, out: seq<Chunk>) {
    function Current(): Half {
      idx % 2
    }
  }

  /** msgs[i] holds the metadata sent from rank i to rank i + 1; slots[i] are the
      magic slots of rank i, which rank i + 1 writes. */
  datatype Chain = Chain(ranks: seq<Rank>, msgs: seq<seq<Info>>, slots: seq<Flags>)

  // ---------- the program of one rank ----------

  datatype Effect = Effect(rank: Rank, pop: bool, push: Option<Info>, clear: Option<Half>, signal: Option<Half>)

  function Quiet(r: Rank): Effect {
    Effect(r, false, None, None, None)
  }

  /** wait_for_complete: the magic must be there, and is reset. */
  function Wait(r: Rank, slots: Flags, h: Half): Option<Effect> {
    if slots[h] then Some(Effect(r, false, None, Some(h), None)) else None
  }

  function Tear(r: Rank): Rank {
    r.(bufs := r.bufs[r.Current() := Torn])
  }

  /** Where a half of n bytes begins in the buffer of both. */
  function HalfStart(h: Half, n: nat): nat {
    if h == 0 then 0 else n
  }

  /** The next step of a rank, or None when it must wait. `prev` are the halves of its predecessor. */
  function Local(src: seq<Bucket>, hasNext: bool, r: Rank, inbox: seq<Info>, slots: Flags,
                 prev: Cells): Option<Effect> {
    match r.phase
    case Fill =>
      if r.idx >= |src| then Some(Quiet(r.(phase := Faulted)))
      else Some(Quiet(r.(phase := Send, bufs := r.bufs[r.Current() := Whole(src[r.idx].bytes)])))
    case Send =>
      if r.idx >= |src| then Some(Quiet(r.(phase := Faulted))) else
        var info := Info(r.Current(), src[r.idx].meta, src[r.idx].isLast);
        var r' :=
          if info.isLast then r.(phase := Drain)
          else if r.shouldWait then r.(phase := Reuse, idx := r.idx + 1)
          else Tear(r.(phase := Fill, idx := r.idx + 1, shouldWait := true));
        Some(Effect(r', false, Some(info), None, None))
    case Reuse => Wait(Tear(r.(phase := Fill)), slots, r.Current())
    case Drain => Wait(r.(phase := Done), slots, r.Current())
    case Recv =>
      if inbox == [] then None
      else Some(Effect(r.(phase := if r.idx >= 2 && hasNext then Credit else Read, info := inbox[0]), true, None, None,
                       None))
    case Credit => Wait(r.(phase := Read), slots, r.Current())
    case Read => Some(Quiet(Tear(r.(phase := Reading))))
    case Reading => Some(Quiet(r.(phase := Forward, bufs := r.bufs[r.Current() := prev[r.info.half]])))
    case Forward =>
      Some(Effect(r.(phase := Yield(0)), false,
                  if hasNext then Some(r.info.(half := r.Current())) else None, None, None))
    case Yield(j) =>
      if j >= |r.info.bucketMeta| then Some(Quiet(r.(phase := Signal)))
      else if r.bufs[r.Current()] == Torn then Some(Quiet(r.(phase := Faulted)))
      else Some(Quiet(r.(phase := Yield(j + 1), out := r.out + 
          [View(r.info.bucketMeta[j], r.bufs[r.Current()].bytes,
                HalfStart(r.Current(), |r.bufs[r.Current()].bytes|))])))
    case Signal =>
      Some(Effect(r.(phase := if r.info.isLast then Done else Recv, idx := r.idx + 1), false, None, None,
                  Some(r.info.half)))
    case Done => None
    case Faulted => None
  }

  // ---------- the chain ----------

  predicate Shape(s: Chain) {
    |s.ranks| >= 2 && |s.msgs| == |s.ranks| - 1 && |s.slots| == |s.ranks|
  }

  function Inbox(s: Chain, i: nat): seq<Info>
    requires Shape(s) && i < |s.ranks|
  {
    if i == 0 then [] else s.msgs[i - 1]
  }

  function Prev(s: Chain, i: nat): Cells
    requires Shape(s) && i < |s.ranks|
  {
    if i == 0 then [Torn, Torn] else s.ranks[i - 1].bufs
  }

  function LocalAt(src: seq<Bucket>, s: Chain, i: nat): Option<Effect>
    requires Shape(s) && i < |s.ranks|
  {
    Local(src, i < |s.ranks| - 1, s.ranks[i], Inbox(s, i), s.slots[i], Prev(s, i))
  }

  function SetFlag(f: Flags, h: Option<Half>, value: bool): Flags {
    if h.Some? then f[h.value := value] else f
  }

  function Apply(s: Chain, i: nat, e: Effect): Chain
    requires Shape(s) && i < |s.ranks|
  {
    var msgs1 := if e.pop && 0 < i && s.msgs[i - 1] != [] then s.msgs[i - 1 := s.msgs[i - 1][1..]] else s.msgs;
    var msgs2 := if e.push.Some? && i < |s.msgs| then msgs1[i := msgs1[i] + [e.push.value]] else msgs1;
    var slots1 := s.slots[i := SetFlag(s.slots[i], e.clear, false)];
    var slots2 := if 0 < i then slots1[i - 1 := SetFlag(s.slots[i - 1], e.signal, true)] else slots1;
    Chain(s.ranks[i := e.rank], msgs2, slots2)
  }

  function Step(src: seq<Bucket>, s: Chain, i: nat): Option<Chain> {
    if !Shape(s) || i >= |s.ranks| then None else
      var e := LocalAt(src, s, i);
      if e.None? then None else Some(Apply(s, i, e.value))
  }

  function InitRank(first: bool): Rank {
    Rank(if first then Fill else Recv, [Torn, Torn], 0, false, Info(0, [], false), [])
  }

  /** The slots are as the previous synchronisation left them. */
  function Init(slots: seq<Flags>): Chain
    requires |slots| >= 2
  {
    Chain(seq(|slots|, i => InitRank(i == 0)), seq(|slots| - 1, _ => []), slots)
  }

  /** The state after rank schedule[0], then rank schedule[1], ... took a step, if all could. */
  function Exec(src: seq<Bucket>, s: Chain, schedule: seq<nat>): Option<Chain>
    decreases schedule
  {
    if schedule == [] then Some(s) else
      var s' := Step(src, s, schedule[0]);
      if s'.None? then None else Exec(src, s'.value, schedule[1..])
  }

  ghost predicate Reachable(src: seq<Bucket>, slots: seq<Flags>, s: Chain) {
    |slots| >= 2 && exists schedule :: Exec(src, Init(slots), schedule) == Some(s)
  }
}
