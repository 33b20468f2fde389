/** The messages of the delta engine and what the receiver does with them
    (verl/checkpoint_engine/delta_checkpoint_engine.py, _publish_flush,
    _publish_values_flush, _publish_terminal, receive_weights;
    verl/workers/rollout/sglang_rollout/delta_loader.py). */
module DeltaMessages {
  import opened DeltaWire
  import opened FlushBuckets
  import opened Wrappers

  // ---------- messages ----------

  /** One whole parameter of a full export; `nbytes` is the size of its values. */
  datatype ValuesPiece = ValuesPiece(name: string, dtype: string, shape: seq<nat>, flat: seq<Float>, nbytes: nat)

  datatype Message =
    | Indexed(flush: DeltaFlush, isLast: bool)
    | Dense(params: seq<DeltaParam>, values: seq<Float>, isLast: bool, verify: bool)
    | Terminal(isFull: bool)
  {
    /** The receive loop stops after this message. */
    predicate Ends() {
      Terminal? || isLast
    }
  }

  /** Exactly one end marker, and it is the last message. */
  predicate EndsOnce(messages: seq<Message>) {
    && messages != []
    && forall i :: 0 <= i < |messages| ==> (messages[i].Ends() <==> i == |messages| - 1)
  }

  predicate NoneEnds(messages: seq<Message>) {
    forall i :: 0 <= i < |messages| ==> !messages[i].Ends()
  }

  // ---------- the receiver ----------

  /** The receive loop takes exactly the messages of one synchronisation from the
      channel, whatever follows them, and yields all but a terminal marker. */
  method ReceiveWeights(channel: seq<Message>, ghost messages: seq<Message>) returns (yielded: seq<Message>, taken: nat)
    requires EndsOnce(messages) && messages <= channel
    ensures taken == |messages|
    ensures yielded == if messages[|messages| - 1].Terminal? then messages[..|messages| - 1] else messages
  {
    yielded, taken := [], 0;
    while true
      invariant taken < |messages| && yielded == messages[..taken]
      decreases |messages| - taken
    {
      var meta := channel[taken];
      assert meta == messages[taken];
      taken := taken + 1;
      if meta.Terminal? {
        break;
      }
      yielded := yielded + [meta];
      if meta.isLast {
        break;
      }
    }
  }

  /** The weights after a list of messages. */
  function ApplyMessages(ws: Weights, messages: seq<Message>): Weights {
    if messages == [] then ws
    else ApplyMessage(ApplyMessages(ws, messages[..|messages| - 1]), messages[|messages| - 1])
  }

  function ApplyMessage(ws: Weights, m: Message): Weights {
    match m
    case Indexed(f, _) => ApplyFlush(ws, f, |f.params|)
    case Dense(params, values, _, _) => ApplyDense(ws, params, values)
    case Terminal(_) => ws
  }

  function ApplyEntry(ws: Weights, f: DeltaFlush, k: nat): Weights {
    if k < |f.params| && Decodable(f, k) && f.params[k].name in ws && |ws[f.params[k].name]| == |DecodeOne(f, k).flat|
    then ws[f.params[k].name := MaskedCopy(ws[f.params[k].name], DecodeOne(f, k).flat)] else ws
  }

  /** The first k entries of the offset table, decoded and copied under the mask. */
  function ApplyFlush(ws: Weights, f: DeltaFlush, k: nat): Weights {
    if k == 0 then ws else ApplyEntry(ApplyFlush(ws, f, k - 1), f, k - 1)
  }

  /** Loading one whole parameter; an unknown name is passed over. A value of another
      size makes the load raise; here it changes nothing. */
  function Load(ws: Weights, name: string, value: seq<Float>): Weights {
    if name in ws && |ws[name]| == |value| then ws[name := value] else ws
  }

  function ApplyDense(ws: Weights, params: seq<DeltaParam>, values: seq<Float>): Weights {
    if params == [] then ws else
      var p := params[|params| - 1];
      var earlier := ApplyDense(ws, params[..|params| - 1], values);
      if p.valStart <= p.valEnd <= |values| then Load(earlier, p.name, values[p.valStart..p.valEnd]) else earlier
  }

  lemma {:induction false} ApplyMessagesConcat(ws: Weights, a: seq<Message>, b: seq<Message>)
    ensures ApplyMessages(ws, a + b) == ApplyMessages(ApplyMessages(ws, a), b)
  {
    if b == [] {
      assert a + b == a;
    } else {
      var n := |b| - 1;
      assert (a + b)[..|a| + n] == a + b[..n];
      ApplyMessagesConcat(ws, a, b[..n]);
    }
  }

  predicate SameShape(a: Weights, b: Weights) {
    a.Keys == b.Keys && forall n :: n in a ==> |a[n]| == |b[n]|
  }

  lemma {:induction false} DenseKeepsShape(ws: Weights, params: seq<DeltaParam>, values: seq<Float>)
    ensures SameShape(ApplyDense(ws, params, values), ws)
  {
    if params != [] {
      DenseKeepsShape(ws, params[..|params| - 1], values);
    }
  }

  lemma {:induction false} FlushKeepsShape(ws: Weights, f: DeltaFlush, k: nat)
    ensures SameShape(ApplyFlush(ws, f, k), ws)
  {
    if k > 0 {
      FlushKeepsShape(ws, f, k - 1);
    }
  }

  /** Whatever is received, a rollout keeps its parameters and their sizes: unknown names
      are passed over. */
  lemma {:induction false} MessagesKeepShape(ws: Weights, messages: seq<Message>)
    ensures SameShape(ApplyMessages(ws, messages), ws)
  {
    if messages != [] {
      var earlier := ApplyMessages(ws, messages[..|messages| - 1]);
      MessagesKeepShape(ws, messages[..|messages| - 1]);
      match messages[|messages| - 1]
      case Indexed(f, _) => FlushKeepsShape(earlier, f, |f.params|);
      case Dense(params, values, _, _) => DenseKeepsShape(earlier, params, values);
      case Terminal(_) =>
    }
  }

  lemma ApplyEntryIsPiece(ws: Weights, pieces: seq<FlushPiece>, k: nat)
    requires AllWellFormed(pieces) && Encodable(pieces) && k < |pieces|
    ensures ApplyEntry(ws, Assembled(pieces), k) == ApplyPiece(ws, pieces[k])
  {
    AssembledEntry(pieces, k);
    DecodeAssembled(pieces, k);
    assert WellFormed(pieces[k]);
  }

  lemma ApplyFlushStep(ws: Weights, f: DeltaFlush, pieces: seq<FlushPiece>, k: nat)
    requires k < |pieces| && ApplyFlush(ws, f, k) == ApplyPieces(ws, pieces[..k])
    requires ApplyEntry(ApplyFlush(ws, f, k), f, k) == ApplyPiece(ApplyFlush(ws, f, k), pieces[k])
    ensures ApplyFlush(ws, f, k + 1) == ApplyPieces(ws, pieces[..k + 1])
  {
    assert pieces[..k + 1] == pieces[..k] + [pieces[k]];
    ApplyPiecesAppend(ws, pieces[..k], pieces[k]);
  }

  /** Decoding a flush through its offset table applies the pieces it was assembled from. */
  lemma {:induction false} ApplyFlushIsPieces(ws: Weights, pieces: seq<FlushPiece>, k: nat)
    requires AllWellFormed(pieces) && Encodable(pieces) && k <= |pieces|
    ensures ApplyFlush(ws, Assembled(pieces), k) == ApplyPieces(ws, pieces[..k])
  {
    if k > 0 {
      var f := Assembled(pieces);
      ApplyFlushIsPieces(ws, pieces, k - 1);
      ApplyEntryIsPiece(ApplyFlush(ws, f, k - 1), pieces, k - 1);
      ApplyFlushStep(ws, f, pieces, k - 1);
    }
  }

  // ---------- indexed flushes ----------

  /** What is published for a stream of flushes. */
  function IndexedOf(published: seq<Published<FlushPiece>>): seq<Message> {
    if published == [] then [] else
      var n := |published| - 1;
      IndexedOf(published[..n]) + [Indexed(Assembled(Pieces(published[n].flush)), published[n].isLast)]
  }

  predicate FlushEncodable(flush: seq<Sized<FlushPiece>>) {
    Encodable(Pieces(flush))
  }

  predicate AllEncodable(published: seq<Published<FlushPiece>>) {
    forall i :: 0 <= i < |published| ==> FlushEncodable(published[i].flush)
  }

  predicate FlushWellFormed(flush: seq<Sized<FlushPiece>>) {
    AllWellFormed(Pieces(flush))
  }

  predicate AllWellFormedFlushes(published: seq<Published<FlushPiece>>) {
    forall i :: 0 <= i < |published| ==> FlushWellFormed(published[i].flush)
  }

  /** The number of flushes that are assembled before the assertion of _assemble_flush fires. */
  function Encodables(flushes: seq<seq<Sized<FlushPiece>>>): (r: nat)
    ensures r <= |flushes| && (r < |flushes| ==> !FlushEncodable(flushes[r]))
    ensures forall i :: 0 <= i < r ==> FlushEncodable(flushes[i])
  {
    if flushes == [] || !FlushEncodable(flushes[0]) then 0 else 1 + Encodables(flushes[1..])
  }

  /** Not ok when the assertion fires for a flush; the earlier flushes were published. */
  method PublishIndexed(published: seq<Published<FlushPiece>>) returns (messages: seq<Message>, ok: bool)
    requires AllWellFormedFlushes(published)
    ensures ok <==> AllEncodable(published)
    ensures ok ==> messages == IndexedOf(published)
    ensures !ok ==>
              var n := |messages|;
              && n < |published| && messages == IndexedOf(published[..n])
              && AllEncodable(published[..n]) && !FlushEncodable(published[n].flush)
  {
    messages := [];
    for i := 0 to |published|
      invariant |messages| == i && messages == IndexedOf(published[..i]) && AllEncodable(published[..i])
    {
      var m := PublishOne(published[i]);
      if m.None? {
        return messages, false;
      }
      LastPublished(published, i);
      messages := messages + [m.value];
    }
    assert published[..|published|] == published;
    ok := true;
  }

  lemma LastPublished(published: seq<Published<FlushPiece>>, i: nat)
    requires i < |published|
    ensures IndexedOf(published[..i + 1])
            == IndexedOf(published[..i]) + [Indexed(Assembled(Pieces(published[i].flush)), published[i].isLast)]
    ensures AllEncodable(published[..i]) && FlushEncodable(published[i].flush) ==> AllEncodable(published[..i + 1])
  {
    assert published[..i + 1][..i] == published[..i];
  }

  method PublishOne(p: Published<FlushPiece>) returns (r: Option<Message>)
    requires FlushWellFormed(p.flush)
    ensures r == if FlushEncodable(p.flush) then Some(Indexed(Assembled(Pieces(p.flush)), p.isLast)) else None
  {
    var flush := AssembleFlush(Pieces(p.flush));
    r := if flush.None? then None else Some(Indexed(flush.value, p.isLast));
  }

  lemma {:induction false} IndexedFlags(published: seq<Published<FlushPiece>>)
    ensures |IndexedOf(published)| == |published|
    ensures forall i :: 0 <= i < |published| ==> (IndexedOf(published)[i].Ends() <==> published[i].isLast)
  {
    if published != [] {
      var n := |published| - 1;
      IndexedFlags(published[..n]);
      assert IndexedOf(published)[..n] == IndexedOf(published[..n]);
    }
  }

  /** The receiver decodes and applies exactly the pieces that were put in the flushes, in order. */
  lemma {:induction false} ApplyIndexed(ws: Weights, published: seq<Published<FlushPiece>>)
    requires AllWellFormedFlushes(published) && AllEncodable(published)
    ensures ApplyMessages(ws, IndexedOf(published)) == ApplyPieces(ws, AllPieces(published))
  {
    if published != [] {
      var n := |published| - 1;
      var pieces, earlier := Pieces(published[n].flush), ApplyPieces(ws, AllPieces(published[..n]));
      ApplyIndexed(ws, published[..n]);
      assert FlushWellFormed(published[n].flush) && FlushEncodable(published[n].flush);
      AssembledTiles(pieces);
      ApplyFlushIsPieces(earlier, pieces, |pieces|);
      assert pieces[..|pieces|] == pieces;
      ApplyPiecesConcat(ws, AllPieces(published[..n]), pieces);
      LastMessage(IndexedOf(published[..n]), Indexed(Assembled(pieces), published[n].isLast));
    }
  }

  lemma LastMessage(messages: seq<Message>, m: Message)
    ensures forall ws :: ApplyMessages(ws, messages + [m]) == ApplyMessage(ApplyMessages(ws, messages), m)
  {
    assert (messages + [m])[..|messages|] == messages;
  }

  // ---------- values-only flushes ----------

  /** _assemble_values: the running offset is the number of values so far. */
  method AssembleValues(pieces: seq<ValuesPiece>) returns (params: seq<DeltaParam>, values: seq<Float>)
    ensures params == ValuesTable(pieces) && values == AllValues(pieces)
  {
    params, values := [], [];
    var valOff: nat := 0;
    for i := 0 to |pieces|
      invariant params == ValuesTable(pieces[..i]) && values == AllValues(pieces[..i]) && valOff == |values|
    {
      assert pieces[..i + 1][..i] == pieces[..i];
      var n := |pieces[i].flat|;
      params := params + [DeltaParam(pieces[i].name, pieces[i].dtype, pieces[i].shape, 0, 0, 4, valOff, valOff + n)];
      valOff := valOff + n;
      values := values + pieces[i].flat;
    }
    assert pieces[..|pieces|] == pieces;
  }

  function AllValues(pieces: seq<ValuesPiece>): seq<Float> {
    if pieces == [] then [] else AllValues(pieces[..|pieces| - 1]) + pieces[|pieces| - 1].flat
  }

  function ValuesTable(pieces: seq<ValuesPiece>): (r: seq<DeltaParam>)
    ensures |r| == |pieces|
  {
    if pieces == [] then [] else
      var p, off := pieces[|pieces| - 1], |AllValues(pieces[..|pieces| - 1])|;
      ValuesTable(pieces[..|pieces| - 1]) + [DeltaParam(p.name, p.dtype, p.shape, 0, 0, 4, off, off + |p.flat|)]
  }

  /** Entry k of a values-only table describes piece k, has no positions, and cuts out
      exactly its values. */
  predicate ValuesEntry(params: seq<DeltaParam>, values: seq<Float>, k: nat, p: ValuesPiece) {
    && k < |params|
    && params[k].name == p.name && params[k].dtype == p.dtype && params[k].shape == p.shape
    && params[k].posStart == params[k].posEnd == 0 && params[k].posWidth == 4
    && params[k].valStart <= params[k].valEnd <= |values|
    && values[params[k].valStart..params[k].valEnd] == p.flat
  }

  lemma {:induction false} ValuesTableEntry(pieces: seq<ValuesPiece>, k: nat)
    requires k < |pieces|
    ensures ValuesEntry(ValuesTable(pieces), AllValues(pieces), k, pieces[k])
  {
    var n := |pieces| - 1;
    if k < n {
      ValuesTableEntry(pieces[..n], k);
      var e := ValuesTable(pieces[..n])[k];
      assert AllValues(pieces)[e.valStart..e.valEnd] == AllValues(pieces[..n])[e.valStart..e.valEnd];
    }
  }

  /** Loading each parameter, in order. */
  function SetAll(ws: Weights, pieces: seq<ValuesPiece>): Weights {
    if pieces == [] then ws
    else Load(SetAll(ws, pieces[..|pieces| - 1]), pieces[|pieces| - 1].name, pieces[|pieces| - 1].flat)
  }

  lemma {:induction false} SetAllConcat(ws: Weights, a: seq<ValuesPiece>, b: seq<ValuesPiece>)
    ensures SetAll(ws, a + b) == SetAll(SetAll(ws, a), b)
  {
    if b == [] {
      assert a + b == a;
    } else {
      assert (a + b)[..|a| + |b| - 1] == a + b[..|b| - 1];
      SetAllConcat(ws, a, b[..|b| - 1]);
    }
  }

  /** The last entry of a table locates the last piece's values. */
  lemma LastValues(pieces: seq<ValuesPiece>, more: seq<Float>)
    requires pieces != []
    ensures var n := |pieces| - 1;
            var off := |AllValues(pieces[..n])|;
            && off + |pieces[n].flat| <= |AllValues(pieces) + more|
            && AllValues(pieces) + more == AllValues(pieces[..n]) + (pieces[n].flat + more)
            && (AllValues(pieces) + more)[off..off + |pieces[n].flat|] == pieces[n].flat
            && ValuesTable(pieces)[..n] == ValuesTable(pieces[..n])
  {
  }

  lemma {:induction false} DenseKept(ws: Weights, pieces: seq<ValuesPiece>, more: seq<Float>)
    ensures ApplyDense(ws, ValuesTable(pieces), AllValues(pieces) + more) == SetAll(ws, pieces)
  {
    if pieces != [] {
      var n := |pieces| - 1;
      DenseKept(ws, pieces[..n], pieces[n].flat + more);
      LastValues(pieces, more);
    }
  }

  lemma {:induction false} DenseBadKept(ws: Weights, half: set<string>, pieces: seq<ValuesPiece>, more: seq<Float>)
    ensures DenseBad(ws, half, ValuesTable(pieces), AllValues(pieces) + more) == BadAll(ws, half, pieces)
  {
    if pieces != [] {
      var n := |pieces| - 1;
      DenseBadKept(ws, half, pieces[..n], pieces[n].flat + more);
      DenseKept(ws, pieces[..n], pieces[n].flat + more);
      LastValues(pieces, more);
    }
  }

  /** The offset table gives the receiver each parameter's own values. */
  lemma ApplyDenseSets(ws: Weights, half: set<string>, pieces: seq<ValuesPiece>)
    ensures ApplyDense(ws, ValuesTable(pieces), AllValues(pieces)) == SetAll(ws, pieces)
    ensures DenseBad(ws, half, ValuesTable(pieces), AllValues(pieces)) == BadAll(ws, half, pieces)
  {
    DenseKept(ws, pieces, []);
    DenseBadKept(ws, half, pieces, []);
    assert AllValues(pieces) + [] == AllValues(pieces);
  }

  /** What is published for a stream of values-only flushes. */
  function DenseOf(published: seq<Published<ValuesPiece>>, verify: bool): seq<Message> {
    if published == [] then [] else
      var n := |published| - 1;
      var pieces := Pieces(published[n].flush);
      DenseOf(published[..n], verify) + [Dense(ValuesTable(pieces), AllValues(pieces), published[n].isLast, verify)]
  }

  method PublishValues(published: seq<Published<ValuesPiece>>, verify: bool) returns (messages: seq<Message>)
    ensures messages == DenseOf(published, verify)
  {
    messages := [];
    for i := 0 to |published|
      invariant messages == DenseOf(published[..i], verify)
    {
      assert published[..i + 1][..i] == published[..i];
      var params, values := AssembleValues(Pieces(published[i].flush));
      messages := messages + [Dense(params, values, published[i].isLast, verify)];
    }
    assert published[..|published|] == published;
  }

  lemma {:induction false} DenseFlags(published: seq<Published<ValuesPiece>>, verify: bool)
    ensures |DenseOf(published, verify)| == |published|
    ensures forall i :: 0 <= i < |published| ==> (DenseOf(published, verify)[i].Ends() <==> published[i].isLast)
  {
    if published != [] {
      DenseFlags(published[..|published| - 1], verify);
    }
  }

  lemma {:induction false} ApplyDenseOf(ws: Weights, half: set<string>, published: seq<Published<ValuesPiece>>,
                                        verify: bool)
    ensures ApplyMessages(ws, DenseOf(published, verify)) == SetAll(ws, AllPieces(published))
    ensures verify ==> SweepBad(ws, half, DenseOf(published, verify)) == BadAll(ws, half, AllPieces(published))
  {
    if published != [] {
      var n := |published| - 1;
      var pieces, earlier := Pieces(published[n].flush), AllPieces(published[..n]);
      var m := Dense(ValuesTable(pieces), AllValues(pieces), published[n].isLast, verify);
      ApplyDenseOf(ws, half, published[..n], verify);
      ApplyDenseSets(SetAll(ws, earlier), half, pieces);
      SetAllConcat(ws, earlier, pieces);
      LastMessage(DenseOf(published[..n], verify), m);
      LastSwept(ws, half, DenseOf(published[..n], verify), m);
      BadAllConcat(ws, half, earlier, pieces);
    }
  }

  // ---------- the verification sweep ----------

  /** The comparison of floating-point numbers: the two zeros are equal, NaN differs
      from everything. */
  predicate EqualNumbers(a: Float, b: Float) {
    !a.NaN? && !b.NaN? && (a == b || (a.Zero? && b.Zero?))
  }

  /** Elements of a two-byte float type are compared by their bits, all others as numbers. */
  predicate SameElement(a: Float, b: Float, byBits: bool) {
    if byBits then a == b else EqualNumbers(a, b)
  }

  predicate SameElements(a: seq<Float>, b: seq<Float>, byBits: bool) {
    |a| == |b| && forall i :: 0 <= i < |a| ==> SameElement(a[i], b[i], byBits)
  }

  /** The number of elements that differ; 1 for a value of another size, which raises. */
  function Differing(a: seq<Float>, b: seq<Float>, byBits: bool): nat {
    if |a| != |b| then 1 else if a == [] then 0 else
      var n := |a| - 1;
      Differing(a[..n], b[..n], byBits) + if SameElement(a[n], b[n], byBits) then 0 else 1
  }

  lemma {:induction false} NoneDiffers(a: seq<Float>, b: seq<Float>, byBits: bool)
    ensures Differing(a, b, byBits) == 0 <==> SameElements(a, b, byBits)
  {
    if |a| == |b| > 0 {
      var n := |a| - 1;
      NoneDiffers(a[..n], b[..n], byBits);
    }
  }

  function DifferingAt(a: seq<Float>, b: seq<Float>, byBits: bool): set<nat>
    requires |a| == |b|
  {
    set i: nat | i < |a| && !SameElement(a[i], b[i], byBits)
  }

  /** Every element that differs is counted once. */
  lemma {:induction false} DifferingCounts(a: seq<Float>, b: seq<Float>, byBits: bool)
    requires |a| == |b|
    ensures Differing(a, b, byBits) == |DifferingAt(a, b, byBits)|
  {
    if a != [] {
      var n := |a| - 1;
      DifferingCounts(a[..n], b[..n], byBits);
      var last := if SameElement(a[n], b[n], byBits) then {} else {n};
      assert DifferingAt(a, b, byBits) == DifferingAt(a[..n], b[..n], byBits) + last;
    }
  }

  /** The elements of one parameter that differ before and after the load; `half` are
      the parameters of the rollout that have a two-byte float type. */
  function Mismatch(ws: Weights, half: set<string>, name: string, value: seq<Float>): nat {
    if name in ws then Differing(ws[name], value, name in half) else 0
  }

  /** _verify_dense for one flush: each parameter is compared with what it overwrites. */
  function DenseBad(ws: Weights, half: set<string>, params: seq<DeltaParam>, values: seq<Float>): nat {
    if params == [] then 0 else
      var n := |params| - 1;
      var p := params[n];
      DenseBad(ws, half, params[..n], values)
      + if p.valStart <= p.valEnd <= |values|
        then Mismatch(ApplyDense(ws, params[..n], values), half, p.name, values[p.valStart..p.valEnd]) else 1
  }

  /** The mismatches counted over a whole sweep; the last flush raises if there are any. */
  function SweepBad(ws: Weights, half: set<string>, messages: seq<Message>): nat {
    if messages == [] then 0 else
      var n := |messages| - 1;
      SweepBad(ws, half, messages[..n])
      + if messages[n].Dense? && messages[n].verify
        then DenseBad(ApplyMessages(ws, messages[..n]), half, messages[n].params, messages[n].values) else 0
  }

  lemma LastSwept(ws: Weights, half: set<string>, messages: seq<Message>, m: Message)
    ensures SweepBad(ws, half, messages + [m]) == SweepBad(ws, half, messages)
            + if m.Dense? && m.verify then DenseBad(ApplyMessages(ws, messages), half, m.params, m.values) else 0
  {
    assert (messages + [m])[..|messages|] == messages;
  }

  function BadAll(ws: Weights, half: set<string>, pieces: seq<ValuesPiece>): nat {
    if pieces == [] then 0
    else BadAll(ws, half, pieces[..|pieces| - 1]) + LastBad(ws, half, pieces)
  }

  function LastBad(ws: Weights, half: set<string>, pieces: seq<ValuesPiece>): nat
    requires pieces != []
  {
    var n := |pieces| - 1;
    Mismatch(SetAll(ws, pieces[..n]), half, pieces[n].name, pieces[n].flat)
  }

  lemma {:induction false} BadAllConcat(ws: Weights, half: set<string>, a: seq<ValuesPiece>, b: seq<ValuesPiece>)
    ensures BadAll(ws, half, a + b) == BadAll(ws, half, a) + BadAll(SetAll(ws, a), half, b)
  {
    if b == [] {
      assert a + b == a;
    } else {
      var n := |b| - 1;
      var c := a + b;
      assert c[..|a| + n] == a + b[..n] && c[|a| + n] == b[n];
      BadAllConcat(ws, half, a, b[..n]);
      SetAllConcat(ws, a, b[..n]);
      assert LastBad(ws, half, c) == LastBad(SetAll(ws, a), half, b);
    }
  }

  predicate DistinctParams(full: seq<ValuesPiece>) {
    forall i, j :: 0 <= i < j < |full| ==> full[i].name != full[j].name
  }

  /** Every exported parameter that the rollout has compares equal to its exported value. */
  predicate Passes(ws: Weights, half: set<string>, pieces: seq<ValuesPiece>) {
    forall i :: 0 <= i < |pieces| ==> PassesAt(ws, half, pieces[i])
  }

  predicate PassesAt(ws: Weights, half: set<string>, p: ValuesPiece) {
    p.name in ws ==> SameElements(ws[p.name], p.flat, p.name in half)
  }

  /** Loading other parameters does not touch this one. */
  lemma {:induction false} LoadOthers(ws: Weights, pieces: seq<ValuesPiece>, name: string)
    requires forall i :: 0 <= i < |pieces| ==> pieces[i].name != name
    ensures name in SetAll(ws, pieces) <==> name in ws
    ensures name in ws ==> SetAll(ws, pieces)[name] == ws[name]
  {
    if pieces != [] {
      LoadOthers(ws, pieces[..|pieces| - 1], name);
    }
  }

  /** The sweep finds nothing exactly when every exported parameter passes. */
  lemma {:induction false} NothingBadIff(ws: Weights, half: set<string>, pieces: seq<ValuesPiece>)
    requires DistinctParams(pieces)
    ensures BadAll(ws, half, pieces) == 0 <==> Passes(ws, half, pieces)
  {
    if pieces != [] {
      var n := |pieces| - 1;
      var p := pieces[n];
      NothingBadIff(ws, half, pieces[..n]);
      LoadOthers(ws, pieces[..n], p.name);
      if p.name in ws {
        NoneDiffers(ws[p.name], p.flat, p.name in half);
      }
      PassesLast(ws, half, pieces);
    }
  }

  lemma PassesLast(ws: Weights, half: set<string>, pieces: seq<ValuesPiece>)
    requires pieces != []
    ensures Passes(ws, half, pieces)
            <==> Passes(ws, half, pieces[..|pieces| - 1]) && PassesAt(ws, half, pieces[|pieces| - 1])
  {
    var n := |pieces| - 1;
    assert forall i :: 0 <= i < n ==> pieces[..n][i] == pieces[i];
  }
}
