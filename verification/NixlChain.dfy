/** The NIXL chain (verl/checkpoint_engine/nixl_checkpoint_engine.py): rank 0 sends
    its buckets to rank 1, which forwards them to rank 2, and so on. Each rank has
    two buffers; it lets its successor read one while it fills the other.

    The model is a transition system. `Advance(i)` is the next step of rank i up
    to its next wait; `Transfer(i)` is the completion of the remote read that rank
    i has begun, which also notifies rank i - 1. A buffer that is being written,
    by a copy or by a remote read, is torn until the write is complete. */
module NixlChain {
  import opened Buckets
  import opened WeightChunks
  import opened Wrappers

  type Slot = s: nat | s < 2

  datatype Cell = Torn | Whole(bytes: seq<byte>)

  type Cells = s: seq<Cell> | |s| == 2 witness [Torn, Torn]

  datatype Metadata = Metadata(bucketMeta: seq<Placed>, isLast: bool)

  /** What a ReadableOperation sends: its notify key, the exposed buffer and the metadata.
      A rank's keys are all different, so its k-th key is modelled by k. */
  datatype Message = Message(key: nat, slot: Slot, metadata: Metadata)

  datatype Read = NoRead | InFlight(slot: Slot, key: nat) | Landed

  datatype Phase =
    // send_weights, rank 0
    | Fill       // copying the chunks of the next bucket into send_buf
    | Settle     // waiting until the previous bucket was read
    | Expose     // about to send the metadata of the bucket in send_buf
    | Drain      // waiting until the last bucket was read
    // _receive_weight_chunks, other ranks
    | AwaitMeta  // waiting for the predecessor's next message
    | AwaitRead  // waiting for the read into recv_buf
    | Serve      // about to send the metadata of the bucket in send_buf
    | Yield(next: nat)
    | AwaitAck   // waiting until the successor has read send_buf
    | Done
    | Faulted    // an assertion failed, or a torn buffer was yielded

  /** `exposed` and `received` count the messages sent and received. */
  datatype Rank = Rank(phase: Phase, bufs: Cells, send: Slot, op: Option<nat>, exposed: nat,
                       current: Metadata, coming: Metadata, read: Read, received: nat, out: seq<Chunk>)

  /** msgs[i] and acks[i] are the message and notification queues between ranks i and i + 1. */
  datatype Chain = Chain(ranks: seq<Rank>, msgs: seq<seq<Message>>, acks: seq<seq<nat>>)

  datatype Action = Advance(rank: nat) | Transfer(rank: nat)

  function Other(s: Slot): Slot {
    1 - s
  }

  // ---------- the program of one rank ----------

  /** What one step does: the rank's new state, and what it takes from and adds to its queues. */
  datatype Effect = Effect(rank: Rank, popMsg: bool, popAck: bool, push: Option<Message>)

  function Quiet(r: Rank): Effect {
    Effect(r, false, false, None)
  }

  /** wait_for_complete of a ReadableOperation. */
  function TakeAck(r: Rank, acks: seq<nat>, then_: Phase): Option<Effect> {
    if r.op.None? then Some(Quiet(r.(phase := then_)))
    else if acks == [] then None
    else if acks[0] != r.op.value then Some(Quiet(r.(phase := Faulted)))
    else Some(Effect(r.(phase := then_, op := None), false, true, None))
  }

  function SendMeta(r: Rank, metadata: Metadata, r': Rank): Effect {
    Effect(r'.(op := Some(r.exposed), exposed := r.exposed + 1), false, false,
           Some(Message(r.exposed, r.send, metadata)))
  }

  function MetaOf(b: Bucket): Metadata {
    Metadata(b.meta, b.isLast)
  }

  /** The next step of a rank, or None when it must wait. */
  function Local(src: seq<Bucket>, hasNext: bool, r: Rank, inbox: seq<Message>, acks: seq<nat>): Option<Effect>
  {
    match r.phase
    case Fill =>
      if r.exposed >= |src| then Some(Quiet(r.(phase := Faulted)))
      else Some(Quiet(r.(phase := Settle, bufs := r.bufs[r.send := Whole(src[r.exposed].bytes)])))
    case Settle => TakeAck(r, acks, Expose)
    case Expose =>
      if r.exposed >= |src| then Some(Quiet(r.(phase := Faulted)))
      else if src[r.exposed].isLast then Some(SendMeta(r, MetaOf(src[r.exposed]), r.(phase := Drain)))
      else Some(SendMeta(r, MetaOf(src[r.exposed]),
                         r.(phase := Fill, send := Other(r.send), bufs := r.bufs[Other(r.send) := Torn])))
    case Drain => TakeAck(r, acks, Done)
    case AwaitMeta =>
      if inbox == [] then None
      else
        var m := inbox[0];
        Some(Effect(r.(phase := if r.received == 0 then AwaitRead else Yield(0),
                       read := InFlight(m.slot, m.key), coming := m.metadata, received := r.received + 1,
                       bufs := r.bufs[Other(r.send) := Torn]), true, false, None))
    case AwaitRead =>
      if r.read != Landed then None
      else Some(Quiet(r.(phase := Serve, read := NoRead, current := r.coming, send := Other(r.send))))
    case Serve =>
      var r' := r.(phase := if r.current.isLast then Yield(0) else AwaitMeta);
      Some(if hasNext then SendMeta(r, r.current, r') else Quiet(r'))
    case Yield(j) =>
      if j >= |r.current.bucketMeta| then Some(Quiet(r.(phase := AwaitAck)))
      else
        var p, cell := r.current.bucketMeta[j], r.bufs[r.send];
        if cell == Torn then Some(Quiet(r.(phase := Faulted)))
        else Some(Quiet(r.(phase := Yield(j + 1), out := r.out + [View(p, cell.bytes, 0)])))
    case AwaitAck => TakeAck(r, acks, if r.current.isLast then Done else AwaitRead)
    case Done => None
    case Faulted => None
  }

  // ---------- the chain ----------

  predicate Shape(s: Chain) {
    |s.ranks| >= 2 && |s.msgs| == |s.acks| == |s.ranks| - 1
  }

  function Inbox(s: Chain, i: nat): seq<Message>
    requires Shape(s) && i < |s.ranks|
  {
    if i == 0 then [] else s.msgs[i - 1]
  }

  function Acks(s: Chain, i: nat): seq<nat>
    requires Shape(s) && i < |s.ranks|
  {
    if i == |s.ranks| - 1 then [] else s.acks[i]
  }

  function LocalAt(src: seq<Bucket>, s: Chain, i: nat): Option<Effect>
    requires Shape(s) && i < |s.ranks|
  {
    Local(src, i < |s.ranks| - 1, s.ranks[i], Inbox(s, i), Acks(s, i))
  }

  function Apply(s: Chain, i: nat, e: Effect): Chain
    requires Shape(s) && i < |s.ranks|
  {
    var msgs1 := if e.popMsg && 0 < i && s.msgs[i - 1] != [] then s.msgs[i - 1 := s.msgs[i - 1][1..]] else s.msgs;
    var msgs2 := if e.push.Some? && i < |s.msgs| then msgs1[i := msgs1[i] + [e.push.value]] else msgs1;
    var acks' := if e.popAck && i < |s.acks| && s.acks[i] != [] then s.acks[i := s.acks[i][1..]] else s.acks;
    Chain(s.ranks[i := e.rank], msgs2, acks')
  }

  function Land(s: Chain, i: nat): Chain
    requires Shape(s) && 0 < i < |s.ranks| && s.ranks[i].read.InFlight?
  {
    var r := s.ranks[i];
    Chain(s.ranks[i := r.(read := Landed, bufs := r.bufs[Other(r.send) := s.ranks[i - 1].bufs[r.read.slot]])],
          s.msgs, s.acks[i - 1 := s.acks[i - 1] + [r.read.key]])
  }

  /** None when the action is not possible. */
  function Step(src: seq<Bucket>, s: Chain, a: Action): Option<Chain> {
    if !Shape(s) || a.rank >= |s.ranks| then None else
      match a
      case Advance(i) =>
        var e := LocalAt(src, s, i);
        if e.None? then None else Some(Apply(s, i, e.value))
      case Transfer(i) =>
        if i == 0 || !s.ranks[i].read.InFlight? then None else Some(Land(s, i))
  }

  function InitRank(first: bool): Rank {
    Rank(if first then Fill else AwaitMeta, [Torn, Torn], 0, None, 0,
         Metadata([], false), Metadata([], false), NoRead, 0, [])
  }

  /** Rank 0 and `receivers` rollout ranks; the buffers hold nothing of this synchronisation. */
  function Init(receivers: nat): Chain {
    Chain(seq(receivers + 1, i => InitRank(i == 0)), seq(receivers, _ => []), seq(receivers, _ => []))
  }

  /** The state after a schedule, if every action of it was possible. */
  function Exec(src: seq<Bucket>, s: Chain, schedule: seq<Action>): Option<Chain>
    decreases schedule
  {
    if schedule == [] then Some(s) else
      var s' := Step(src, s, schedule[0]);
      if s'.None? then None else Exec(src, s'.value, schedule[1..])
  }

  ghost predicate Reachable(src: seq<Bucket>, receivers: nat, s: Chain) {
    exists schedule :: Exec(src, Init(receivers), schedule) == Some(s)
  }
}
