/** Reshaping batches (verl/protocol.py: fold_batch_dim, unfold_batch_dim,
    DataProto.repeat, DataProto.unfold_column_chunks). */
module BatchReshapes {
  import opened Arithmetic
  import opened Chunking
  import opened DataProtos
  import opened Sequences
  import opened Wrappers

  // ---------- repeating rows ----------

  lemma RepeatIndex(n: nat, times: nat, i: nat)
    requires i < n * times
    ensures times > 0 && i / times < n
  {
    SomeTimes(n, times);
    DivMod(i, times, i / times, i % times);
    Below(n, times, i, i / times, i % times);
  }

  lemma SomeTimes(n: nat, times: nat)
    requires n * times > 0
    ensures times > 0
  {
  }

  lemma Below(n: nat, d: nat, k: nat, q: nat, r: nat)
    requires k < n * d && k == q * d + r
    ensures q < n
  {
    if q >= n {
      Monotone(n, q, d);
    }
  }

  /** repeat_interleave: every entry `times` times in a row. */
  function RepeatEach<T>(t: seq<T>, times: nat): (r: seq<T>)
    ensures |r| == |t| * times
  {
    seq(|t| * times, i requires 0 <= i < |t| * times => RepeatIndex(|t|, times, i); t[i / times])
  }

  lemma RepeatAt<T>(t: seq<T>, times: nat, i: nat, j: nat)
    requires i < |t| && j < times
    ensures i * times + j < |t| * times && RepeatEach(t, times)[i * times + j] == t[i]
  {
    FlatLength(i, times);
    Monotone(i + 1, |t|, times);
    ModOf(i, times, j);
  }

  /** An entry of a repeated sequence, with a name for its index. */
  lemma RepeatAtIndex<T>(t: seq<T>, times: nat, i: nat, j: nat, k: nat)
    requires i < |t| && j < times && k == i * times + j
    ensures k < |RepeatEach(t, times)| && RepeatEach(t, times)[k] == t[i]
  {
    RepeatAt(t, times, i, j);
  }

  lemma RepeatConcatAt<T>(a: seq<T>, b: seq<T>, times: nat, i: nat, j: nat, k: nat, cut: nat)
    requires i < |a| + |b| && j < times && k == i * times + j && cut == |a| * times
    ensures k < |RepeatEach(a + b, times)| && RepeatEach(a + b, times)[k] == (a + b)[i]
    ensures if i < |a| then k < cut && RepeatEach(a, times)[k] == a[i]
            else k >= cut && k - cut < |RepeatEach(b, times)| && RepeatEach(b, times)[k - cut] == b[i - |a|]
  {
    RepeatAtIndex(a + b, times, i, j, k);
    if i < |a| {
      RepeatAtIndex(a, times, i, j, k);
    } else {
      Distribute(|a|, i - |a|, times);
      Monotone(0, i - |a|, times);
      RepeatAtIndex(b, times, i - |a|, j, k - cut);
    }
  }

  lemma RepeatConcat<T>(a: seq<T>, b: seq<T>, times: nat)
    ensures RepeatEach(a + b, times) == RepeatEach(a, times) + RepeatEach(b, times)
  {
    var whole, parts := RepeatEach(a + b, times), RepeatEach(a, times) + RepeatEach(b, times);
    Distribute(|a|, |b|, times);
    forall k | 0 <= k < |whole| ensures whole[k] == parts[k] {
      RepeatIndex(|a| + |b|, times, k);
      DivMod(k, times, k / times, k % times);
      RepeatConcatAt(a, b, times, k / times, k % times, k, |a| * times);
    }
  }

  function RepeatAll<T>(blocks: seq<seq<T>>, times: nat): seq<seq<T>> {
    if blocks == [] then [] else [RepeatEach(blocks[0], times)] + RepeatAll(blocks[1..], times)
  }

  /** Chunking after an interleaved repeat is repeating each chunk. */
  lemma {:induction false} RepeatCommutesWithBlocks<T>(t: seq<T>, times: nat, size: nat, n: nat, wide: nat)
    requires size > 0 && times > 0 && |t| == n * size && wide == size * times && wide > 0
    ensures Blocks(RepeatEach(t, times), wide) == RepeatAll(Blocks(t, size), times)
    decreases n
  {
    if n == 0 {
      assert RepeatEach(t, times) == [];
    } else {
      FlatLength(n - 1, size);
      Monotone(0, n - 1, size);
      var head, tail := t[..size], t[size..];
      RepeatCommutesWithBlocks(tail, times, size, n - 1, wide);
      assert t == head + tail;
      RepeatConcat(head, tail, times);
      FlatLength(0, wide);
      BlocksConcat(RepeatEach(head, times), RepeatEach(tail, times), wide, 1);
      BlocksConcat(head, tail, size, 1);
      assert Blocks(RepeatEach(head, times), wide) == [RepeatEach(head, times)];
      assert Blocks(head, size) == [head];
    }
  }

  /** DataProto.repeat, interleaved. */
  function Repeat<R, V>(d: DataProto<R, V>, n: nat, times: nat): (r: DataProto<R, V>)
    requires Sized(d, n)
    ensures Sized(r, n * times) && KindOf(r) == KindOf(d)
  {
    DataProto(if d.batch.Some? then Some(RepeatEach(d.batch.value, times)) else None,
              map k | k in d.nonTensor :: RepeatEach(d.nonTensor[k], times))
  }

  lemma RepeatRow<R, V>(d: DataProto<R, V>, n: nat, times: nat, i: nat, j: nat)
    requires Sized(d, n) && i < n && j < times
    ensures i * times + j < n * times && RowAt(Repeat(d, n, times), n * times, i * times + j) == RowAt(d, n, i)
  {
    FlatLength(i, times);
    Monotone(i + 1, n, times);
    if d.batch.Some? {
      RepeatAt(d.batch.value, times, i, j);
    }
    forall k | k in d.nonTensor ensures RepeatEach(d.nonTensor[k], times)[i * times + j] == d.nonTensor[k][i] {
      RepeatAt(d.nonTensor[k], times, i, j);
    }
  }

  lemma RepeatSlice<T>(t: seq<T>, times: nat, lo: nat, hi: nat, from: nat, to: nat)
    requires lo <= hi <= |t| && from == lo * times && to == hi * times
    ensures from <= to <= |t| * times && RepeatEach(t, times)[from..to] == RepeatEach(t[lo..hi], times)
  {
    Distribute(lo, hi - lo, times);
    Distribute(hi, |t| - hi, times);
    Monotone(0, hi - lo, times);
    Monotone(0, |t| - hi, times);
    assert t == t[..lo] + t[lo..hi] + t[hi..];
    RepeatConcat(t[..lo] + t[lo..hi], t[hi..], times);
    RepeatConcat(t[..lo], t[lo..hi], times);
  }

  /** A chunk of the repeated batch is the repeated chunk, in every part. */
  lemma RepeatCommutesWithChunk<R, V>(d: DataProto<R, V>, n: nat, times: nat, lo: nat, hi: nat, from: nat, to: nat)
    requires Sized(d, n) && lo <= hi <= n && from == lo * times && to == hi * times
    ensures from <= to <= n * times
    ensures Slice(Repeat(d, n, times), n * times, from, to) == Repeat(Slice(d, n, lo, hi), hi - lo, times)
  {
    RepeatSlice(seq(n, _ => 0), times, lo, hi, from, to);
    var a, b := Slice(Repeat(d, n, times), n * times, from, to), Repeat(Slice(d, n, lo, hi), hi - lo, times);
    if d.batch.Some? {
      RepeatSlice(d.batch.value, times, lo, hi, from, to);
    }
    forall k | k in d.nonTensor ensures a.nonTensor[k] == b.nonTensor[k] {
      RepeatSlice(d.nonTensor[k], times, lo, hi, from, to);
    }
    assert a.nonTensor == b.nonTensor && a.batch == b.batch;
  }

  // ---------- folding ----------

  datatype Folded<R, V> = Folded(batch: seq<seq<R>>, nonTensor: map<string, seq<seq<V>>>)

  /** fold_batch_dim; None when the assertion fails. */
  function Fold<R, V>(d: DataProto<R, V>, n: nat, newSize: nat): Option<Folded<R, V>>
    requires Sized(d, n) && d.batch.Some? && n > 0 && newSize > 0
  {
    if n % newSize != 0 then None else
      FoldSize(n, newSize);
      Some(Folded(Blocks(d.batch.value, n / newSize), map k | k in d.nonTensor :: Blocks(d.nonTensor[k], n / newSize)))
  }

  lemma FoldSize(n: nat, newSize: nat)
    requires n > 0 && newSize > 0 && n % newSize == 0
    ensures n / newSize > 0 && n == newSize * (n / newSize)
  {
  }

  /** unfold_batch_dim */
  function Unfold<R, V>(f: Folded<R, V>): DataProto<R, V> {
    DataProto(Some(Flatten(f.batch)), map k | k in f.nonTensor :: Flatten(f.nonTensor[k]))
  }

  /** Unfolding a folded batch restores it. */
  lemma UnfoldFold<R, V>(d: DataProto<R, V>, n: nat, newSize: nat)
    requires Sized(d, n) && d.batch.Some? && n > 0 && newSize > 0
    ensures Fold(d, n, newSize).Some? <==> n % newSize == 0
    ensures Fold(d, n, newSize).Some? ==> Unfold(Fold(d, n, newSize).value) == d
  {
    if n % newSize == 0 {
      FoldSize(n, newSize);
      var s := n / newSize;
      BlocksTile(d.batch.value, s);
      forall k | k in d.nonTensor ensures Flatten(Blocks(d.nonTensor[k], s)) == d.nonTensor[k] {
        BlocksTile(d.nonTensor[k], s);
      }
    }
  }

  /** A folded batch of m groups of s rows. */
  predicate FoldedSized<R, V>(f: Folded<R, V>, m: nat, s: nat) {
    && |f.batch| == m && AllOfSize(f.batch, s)
    && forall k :: k in f.nonTensor ==> |f.nonTensor[k]| == m && AllOfSize(f.nonTensor[k], s)
  }

  /** Folding an unfolded batch into as many groups restores it. */
  lemma FoldUnfold<R, V>(f: Folded<R, V>, m: nat, s: nat)
    requires FoldedSized(f, m, s) && m > 0 && s > 0
    ensures m * s > 0 && Sized(Unfold(f), m * s)
    ensures Fold(Unfold(f), m * s, m) == Some(f)
  {
    Positive(m, s);
    FoldUnfoldSized(f, m, s, m * s);
  }

  lemma FoldUnfoldSized<R, V>(f: Folded<R, V>, m: nat, s: nat, n: nat)
    requires FoldedSized(f, m, s) && m > 0 && s > 0 && n == m * s && n > 0
    ensures Sized(Unfold(f), n) && Fold(Unfold(f), n, m) == Some(f)
  {
    DivNamed(s, m, n);
    BlocksOfFlat(f.batch, s);
    forall k | k in f.nonTensor
      ensures |Flatten(f.nonTensor[k])| == n && Blocks(Flatten(f.nonTensor[k]), s) == f.nonTensor[k] {
      BlocksOfFlat(f.nonTensor[k], s);
    }
    var u := Unfold(f);
    assert Sized(u, n);
    var g := Fold(u, n, m).value;
    assert g.batch == f.batch;
    assert g.nonTensor.Keys == f.nonTensor.Keys;
    forall k | k in f.nonTensor ensures g.nonTensor[k] == f.nonTensor[k] {
      assert u.nonTensor[k] == Flatten(f.nonTensor[k]);
    }
    assert g.nonTensor == f.nonTensor;
  }

  lemma DivNamed(q: nat, d: nat, n: nat)
    requires d > 0 && n == d * q
    ensures n / d == q && n % d == 0
  {
    assert n == q * d;
    DivExact(q, d);
  }

  // ---------- folding in place ----------

  /** A column before and after folding. */
  datatype Axis<V> = Rows(rows: seq<V>) | Groups(groups: seq<seq<V>>)

  /** The caller's batch. Folding takes a view of the tensor block, but reassigns the
      entries of the caller's own dictionary of columns. */
  class CallersBatch<R, V> {
    var batch: seq<R>
    var nonTensor: map<string, Axis<V>>

    ghost predicate Holds(d: DataProto<R, V>)
      reads this
    {
      d.batch == Some(batch) && nonTensor == InRows(d.nonTensor)
    }

    constructor (d: DataProto<R, V>)
      requires d.batch.Some?
      ensures Holds(d)
    {
      batch := d.batch.value;
      nonTensor := InRows(d.nonTensor);
    }

    /** fold_batch_dim; None when the assertion fails. */
    method FoldBatchDim(n: nat, newSize: nat, ghost d: DataProto<R, V>) returns (r: Option<Folded<R, V>>)
      requires Holds(d) && Sized(d, n) && n > 0 && newSize > 0
      modifies this`nonTensor
      ensures r == Fold(d, n, newSize)
      ensures r.None? ==> nonTensor == old(nonTensor)
      ensures r.Some? ==> nonTensor == InGroups(r.value.nonTensor)
    {
      if n % newSize != 0 {
        return None;
      }
      FoldSize(n, newSize);
      var folded := FoldColumns(n / newSize, d);
      r := Some(Folded(Blocks(batch, n / newSize), folded));
      assert r.value.nonTensor == Fold(d, n, newSize).value.nonTensor;
    }

    method FoldColumns(size: nat, ghost d: DataProto<R, V>) returns (folded: map<string, seq<seq<V>>>)
      requires Holds(d) && size > 0
      modifies this`nonTensor
      ensures folded == map k | k in d.nonTensor :: Blocks(d.nonTensor[k], size)
      ensures nonTensor == InGroups(folded)
    {
      folded := map[];
      var left := nonTensor.Keys;
      while left != {}
        invariant left <= d.nonTensor.Keys && PartlyFolded(nonTensor, folded, d.nonTensor, left, size)
        decreases |left|
      {
        var k :| k in left;
        FoldedNext(nonTensor, folded, d.nonTensor, left, size, k);
        folded := folded[k := Blocks(nonTensor[k].rows, size)];
        nonTensor := nonTensor[k := Groups(folded[k])];
        left := left - {k};
      }
      AllFolded(nonTensor, folded, d.nonTensor, size);
    }
  }

  lemma AllFolded<V>(current: map<string, Axis<V>>, folded: map<string, seq<seq<V>>>, columns: map<string, seq<V>>,
                     size: nat)
    requires size > 0 && PartlyFolded(current, folded, columns, {}, size)
    ensures folded == map k | k in columns :: Blocks(columns[k], size)
    ensures current == InGroups(folded)
  {
    forall k | k in columns
      ensures k in folded && folded[k] == Blocks(columns[k], size) && current[k] == Groups(folded[k])
    {
      assert KeyPartlyFolded(current[k], folded, columns[k], k, {}, size);
    }
  }

  function InRows<V>(columns: map<string, seq<V>>): map<string, Axis<V>> {
    map k | k in columns :: Rows(columns[k])
  }

  /** The dictionary while the keys in `left` are still to be folded. */
  predicate PartlyFolded<V(==)>(current: map<string, Axis<V>>, folded: map<string, seq<seq<V>>>,
                                columns: map<string, seq<V>>, left: set<string>, size: nat)
    requires size > 0
  {
    && current.Keys == columns.Keys && folded.Keys == columns.Keys - left
    && forall k :: k in columns && k in current ==> KeyPartlyFolded(current[k], folded, columns[k], k, left, size)
  }

  predicate KeyPartlyFolded<V(==)>(current: Axis<V>, folded: map<string, seq<seq<V>>>, column: seq<V>, k: string,
                                   left: set<string>, size: nat)
    requires size > 0
  {
    if k in left then current == Rows(column)
    else k in folded && folded[k] == Blocks(column, size) && current == Groups(folded[k])
  }

  lemma FoldedNext<V>(current: map<string, Axis<V>>, folded: map<string, seq<seq<V>>>, columns: map<string, seq<V>>,
                      left: set<string>, size: nat, k: string)
    requires size > 0 && left <= columns.Keys && k in left && PartlyFolded(current, folded, columns, left, size)
    ensures k in current && current[k] == Rows(columns[k])
    ensures PartlyFolded(current[k := Groups(Blocks(columns[k], size))], folded[k := Blocks(columns[k], size)], columns,
                         left - {k}, size)
  {
    assert KeyPartlyFolded(current[k], folded, columns[k], k, left, size);
    var current', folded' := current[k := Groups(Blocks(columns[k], size))], folded[k := Blocks(columns[k], size)];
    forall j | j in columns ensures KeyPartlyFolded(current'[j], folded', columns[j], j, left - {k}, size) {
      assert KeyPartlyFolded(current[j], folded, columns[j], j, left, size);
    }
  }

  function InGroups<V>(columns: map<string, seq<seq<V>>>): map<string, Axis<V>> {
    map k | k in columns :: Groups(columns[k])
  }

  /** After folding into fewer groups than rows, every column left with the caller has
      another length than the caller's tensor block. */
  lemma CallerLeftUneven<R, V>(d: DataProto<R, V>, n: nat, newSize: nat, k: string)
    requires Sized(d, n) && d.batch.Some? && n > 0 && newSize > 0 && k in d.nonTensor
    requires Fold(d, n, newSize).Some?
    ensures |Fold(d, n, newSize).value.nonTensor[k]| == newSize
    ensures |Fold(d, n, newSize).value.nonTensor[k]| == |d.batch.value| <==> newSize == n
  {
    FoldSize(n, newSize);
    BlocksExact(d.nonTensor[k], n / newSize, newSize);
  }

  // ---------- column chunks ----------

  /** The entries of a key are rows of one width, which are cut along the second dimension. */
  datatype Column<T> = Column(width: nat, rows: seq<seq<T>>)

  datatype Table<T> = Table(tensors: map<string, Column<T>>, nonTensor: map<string, Column<T>>)

  /** TypeError: looking a key up in no list at all. ShapeError: rows that do not divide. */
  datatype Error = TypeError | ShapeError

  datatype Result<T> = Unfolded(value: T) | Failed(error: Error)

  predicate ColumnSized<T>(c: Column<T>, b: nat) {
    |c.rows| == b && AllOfSize(c.rows, c.width)
  }

  predicate ColumnsSized<T>(cs: map<string, Column<T>>, b: nat) {
    forall k :: k in cs ==> ColumnSized(cs[k], b)
  }

  /** reshape to `times` as many rows, each 1 / times as wide. */
  function Reshape<T>(rows: seq<seq<T>>, width: nat, times: nat): seq<seq<T>>
    requires times > 0
  {
    if width / times == 0 then seq(|rows| * times, _ => []) else Blocks(Flatten(rows), width / times)
  }

  function UnfoldColumn<T>(c: Column<T>, times: nat, split: bool): seq<seq<T>>
    requires times > 0
  {
    if split then Reshape(c.rows, c.width, times) else RepeatEach(c.rows, times)
  }

  /** The rows can be cut, or there are none. */
  predicate Divides<T>(c: Column<T>, times: nat)
    requires times > 0
  {
    c.rows == [] || c.width % times == 0
  }

  /** A reshape is possible if and only if it keeps the number of elements. */
  lemma DividesIff<T>(c: Column<T>, times: nat)
    requires times > 0
    ensures Divides(c, times) <==> |c.rows| * c.width == |c.rows| * times * (c.width / times)
  {
    var q, r := c.width / times, c.width % times;
    DivMod(c.width, times, q, r);
    KeptElements(|c.rows|, c.width, times, q, r);
  }

  lemma KeptElements(b: nat, width: nat, times: nat, q: nat, r: nat)
    requires width == q * times + r
    ensures b * width == b * times * q <==> b == 0 || r == 0
  {
    assert b * width == b * times * q + b * r;
    if b > 0 && r > 0 {
      Positive(b, r);
    }
  }

  /** key in split_keys; None when there is no list. */
  function Contains(splitKeys: Option<set<string>>, k: string): Option<bool> {
    if splitKeys.Some? then Some(k in splitKeys.value) else None
  }

  predicate Splits(splitKeys: Option<set<string>>, k: string) {
    splitKeys.Some? && k in splitKeys.value
  }

  /** Every key of the columns, unfolded. */
  predicate AreUnfolded<T(==)>(unfolded: map<string, seq<seq<T>>>, cs: map<string, Column<T>>, times: nat,
                               splitKeys: Option<set<string>>)
    requires times > 0
  {
    unfolded.Keys == cs.Keys && forall k :: k in cs && k in unfolded ==>
        unfolded[k] == UnfoldColumn(cs[k], times, Splits(splitKeys, k))
  }

  predicate AllDivide<T>(cs: map<string, Column<T>>, times: nat, splitKeys: Option<set<string>>)
    requires times > 0
  {
    forall k :: k in cs && Splits(splitKeys, k) ==> Divides(cs[k], times)
  }

  /** The loop over the tensor keys, which takes no list for an empty one. */
  method UnfoldTensors<T>(cs: map<string, Column<T>>, times: nat, splitKeys: Option<set<string>>)
    returns (r: Result<map<string, seq<seq<T>>>>)
    requires times > 0
    ensures r.Unfolded? <==> AllDivide(cs, times, splitKeys)
    ensures r.Failed? ==> r.error == ShapeError
    ensures r.Unfolded? ==> AreUnfolded(r.value, cs, times, splitKeys)
  {
    var unfolded: map<string, seq<seq<T>>> := map[];
    var left := cs.Keys;
    while left != {}
      invariant left <= cs.Keys && unfolded.Keys == cs.Keys - left
      invariant forall k :: k in unfolded ==>
                  k in cs && unfolded[k] == UnfoldColumn(cs[k], times, Splits(splitKeys, k))
                  && (Splits(splitKeys, k) ==> Divides(cs[k], times))
      decreases |left|
    {
      var k :| k in left;
      var found := Contains(splitKeys, k);
      var split := if splitKeys.Some? then found.value else false;
      if split && !Divides(cs[k], times) {
        return Failed(ShapeError);
      }
      unfolded := unfolded[k := UnfoldColumn(cs[k], times, split)];
      left := left - {k};
    }
    return Unfolded(unfolded);
  }

  /** The loop over the other keys, which looks each of them up in the list. */
  method UnfoldNonTensors<T>(cs: map<string, Column<T>>, times: nat, splitKeys: Option<set<string>>)
    returns (r: Result<map<string, seq<seq<T>>>>)
    requires times > 0
    ensures r.Unfolded? <==> (splitKeys.None? ==> cs == map[]) && AllDivide(cs, times, splitKeys)
    ensures r == Failed(TypeError) <==> splitKeys.None? && cs != map[]
    ensures r.Unfolded? ==> AreUnfolded(r.value, cs, times, splitKeys)
  {
    var unfolded: map<string, seq<seq<T>>> := map[];
    var left := cs.Keys;
    while left != {}
      invariant left <= cs.Keys && unfolded.Keys == cs.Keys - left
      invariant unfolded != map[] ==> splitKeys.Some?
      invariant forall k :: k in unfolded ==>
                  k in cs && unfolded[k] == UnfoldColumn(cs[k], times, Splits(splitKeys, k))
                  && (Splits(splitKeys, k) ==> Divides(cs[k], times))
      decreases |left|
    {
      var k :| k in left;
      var found := Contains(splitKeys, k);
      if found.None? {
        return Failed(TypeError);
      }
      if found.value && !Divides(cs[k], times) {
        return Failed(ShapeError);
      }
      unfolded := unfolded[k := UnfoldColumn(cs[k], times, found.value)];
      left := left - {k};
    }
    return Unfolded(unfolded);
  }

  /** The keys and rows after the call. */
  datatype UnfoldedTable<T> = UnfoldedTable(tensors: map<string, seq<seq<T>>>, nonTensor: map<string, seq<seq<T>>>)

  /** unfold_column_chunks. Although no list of split keys is documented to mean that all
      keys are repeated, the call then fails exactly when there is a non-tensor key. */
  method UnfoldColumnChunks<T>(t: Table<T>, times: nat, splitKeys: Option<set<string>>)
    returns (r: Result<UnfoldedTable<T>>)
    requires times > 0
    ensures r.Unfolded? <==> && AllDivide(t.tensors, times, splitKeys) && AllDivide(t.nonTensor, times, splitKeys)
                             && (splitKeys.None? ==> t.nonTensor == map[])
    ensures r == Failed(TypeError) <==> splitKeys.None? && t.nonTensor != map[]
    ensures r.Unfolded? ==> && AreUnfolded(r.value.tensors, t.tensors, times, splitKeys)
                            && AreUnfolded(r.value.nonTensor, t.nonTensor, times, splitKeys)
  {
    var tensors := UnfoldTensors(t.tensors, times, splitKeys);
    if tensors.Failed? {
      return Failed(tensors.error);
    }
    var nonTensor := UnfoldNonTensors(t.nonTensor, times, splitKeys);
    if nonTensor.Failed? {
      return Failed(nonTensor.error);
    }
    return Unfolded(UnfoldedTable(tensors.value, nonTensor.value));
  }

  lemma ReshapeAt<T>(rows: seq<seq<T>>, width: nat, times: nat, c: nat, i: nat, j: nat)
    requires times > 0 && width == times * c && c > 0 && AllOfSize(rows, width) && i < |rows| && j < times
    ensures 0 <= i * times + j < |Reshape(rows, width, times)| && 0 <= j * c <= j * c + c <= width
    ensures Reshape(rows, width, times)[i * times + j] == rows[i][j * c..j * c + c]
  {
    Positive(times, c);
    DivNamed(c, times, width);
    FlatLength(j, c);
    Monotone(j + 1, times, c);
    Monotone(0, j, c);
    RowOffset(|rows|, times, c, i, j, width);
    BlocksOfFlat(rows, width);
    BlockOfRow(rows, width, c, |rows| * times, i, i * times + j, j * c, i * width);
  }

  lemma BlockOfRow<T>(rows: seq<seq<T>>, width: nat, c: nat, count: nat, i: nat, at: nat, inner: nat, start: nat)
    requires width > 0 && c > 0 && AllOfSize(rows, width) && i < |rows| && at < count
    requires |rows| * width == count * c && at * c == start + inner && start == i * width && inner + c <= width
    ensures |Blocks(Flatten(rows), c)| == count && Blocks(Flatten(rows), c)[at] == rows[i][inner..inner + c]
  {
    var flat := Flatten(rows);
    BlocksOfFlat(rows, width);
    BlockAt(flat, width, |rows|, i);
    BlockAt(flat, c, count, at);
    SliceOfSlice(flat, start, start + width, inner, inner + c);
  }

  lemma RowOffset(b: nat, times: nat, c: nat, i: nat, j: nat, width: nat)
    requires width == times * c && i < b && j < times
    ensures b * width == (b * times) * c && (i * times + j) * c == i * width + j * c
    ensures 0 <= i * times + j < b * times
  {
    FlatLength(i, times);
    Monotone(i + 1, b, times);
    Monotone(0, i, times);
    Distribute(i * times, j, c);
  }

  /** Row i * times + j of an unfolded key comes from row i: it is block j of it when the
      key is split, and all of it otherwise. */
  predicate ComesFrom<T(==)>(unfolded: seq<seq<T>>, c: Column<T>, times: nat, split: bool, i: nat, j: nat)
    requires times > 0 && i < |c.rows| && |c.rows[i]| == c.width && j < times
  {
    && 0 <= i * times + j < |unfolded|
    && if split then
         && 0 <= j * (c.width / times) <= j * (c.width / times) + c.width / times <= c.width
         && unfolded[i * times + j] == c.rows[i][j * (c.width / times)..j * (c.width / times) + c.width / times]
       else unfolded[i * times + j] == c.rows[i]
  }

  lemma ColumnRow<T>(c: Column<T>, b: nat, times: nat, split: bool, i: nat, j: nat)
    requires times > 0 && ColumnSized(c, b) && i < b && j < times && (split ==> Divides(c, times))
    ensures ComesFrom(UnfoldColumn(c, times, split), c, times, split, i, j)
  {
    RepeatAt(c.rows, times, i, j);
    Monotone(0, i, times);
    if split {
      if c.width == 0 {
        assert c.width / times == 0 && j * 0 == 0;
      } else {
        FoldSize(c.width, times);
        ReshapeAt(c.rows, c.width, times, c.width / times, i, j);
      }
    }
  }

  /** Rows stay matched across all keys, tensor or not: at every output row, every split
      key has its block j of row i and every other key row i. */
  lemma UnfoldRowsMatch<T>(t: Table<T>, u: UnfoldedTable<T>, b: nat, times: nat, splitKeys: Option<set<string>>, i: nat,
                           j: nat)
    requires times > 0 && ColumnsSized(t.tensors, b) && ColumnsSized(t.nonTensor, b) && i < b && j < times
    requires AllDivide(t.tensors, times, splitKeys) && AllDivide(t.nonTensor, times, splitKeys)
    requires AreUnfolded(u.tensors, t.tensors, times, splitKeys)
    requires AreUnfolded(u.nonTensor, t.nonTensor, times, splitKeys)
    ensures RowMatches(u.tensors, t.tensors, b, times, splitKeys, i, j)
    ensures RowMatches(u.nonTensor, t.nonTensor, b, times, splitKeys, i, j)
  {
    ColumnsMatch(u.tensors, t.tensors, b, times, splitKeys, i, j);
    ColumnsMatch(u.nonTensor, t.nonTensor, b, times, splitKeys, i, j);
  }

  /** Output row i * times + j of every key comes from its row i. */
  predicate RowMatches<T(==)>(unfolded: map<string, seq<seq<T>>>, cs: map<string, Column<T>>, b: nat, times: nat,
                              splitKeys: Option<set<string>>, i: nat, j: nat)
    requires times > 0 && ColumnsSized(cs, b) && i < b && j < times
  {
    forall k :: k in cs ==> k in unfolded && KeyMatches(unfolded[k], cs[k], b, times, Splits(splitKeys, k), i, j)
  }

  predicate KeyMatches<T(==)>(unfolded: seq<seq<T>>, c: Column<T>, b: nat, times: nat, split: bool, i: nat, j: nat)
    requires times > 0 && i < b && j < times
  {
    ColumnSized(c, b) && ComesFrom(unfolded, c, times, split, i, j)
  }

  lemma ColumnsMatch<T>(unfolded: map<string, seq<seq<T>>>, cs: map<string, Column<T>>, b: nat, times: nat,
                        splitKeys: Option<set<string>>, i: nat, j: nat)
    requires times > 0 && ColumnsSized(cs, b) && i < b && j < times
    requires AllDivide(cs, times, splitKeys) && AreUnfolded(unfolded, cs, times, splitKeys)
    ensures RowMatches(unfolded, cs, b, times, splitKeys, i, j)
  {
    forall k | k in cs ensures k in unfolded && KeyMatches(unfolded[k], cs[k], b, times, Splits(splitKeys, k), i, j) {
      ColumnRow(cs[k], b, times, Splits(splitKeys, k), i, j);
    }
  }
}
