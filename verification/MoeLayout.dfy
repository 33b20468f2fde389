/** Stacking the experts of a state dict and unstacking them
    (scripts/veomni/moe_merge.py, scripts/veomni/moe_split.py). */
module MoeLayout {
  import opened Arithmetic
  import opened Chunking
  import opened Sequences
  import opened ValueTypes
  import opened WeightChunks
  import opened Wrappers

  datatype Proj = Gate | Up | Down

  /** The three forms of key: model.layers.{i}.mlp.experts.{j}.{proj}_proj.weight,
      model.layers.{i}.mlp.experts.{proj}_proj, and all others. */
  datatype Key = Expert(layer: nat, expert: nat, proj: Proj) | Stacked(layer: nat, proj: Proj) | Other(name: string)

  /** The elements stand for their values, which conversion to a promoted type keeps. */
  datatype Elements = Elements(vtype: ValueType, shape: seq<nat>, values: seq<int>)

  /** The elements are in row-major order. */
  type Tensor = t: Elements | |t.values| == Numel(t.shape) witness Elements(Float32, [0], [])

  /** The entries of a model's configuration that the scripts read; the last three
      are there for some models only. */
  datatype Config = Config(layers: nat, numExperts: Option<nat>, nRoutedExperts: Option<nat>,
                           firstKDenseReplace: Option<nat>)

  type StateDict = map<Key, Tensor>

  function Lookup(d: StateDict, k: Key): Option<Tensor> {
    if k in d then Some(d[k]) else None
  }

  /** The state dict without key k, as pop leaves it, and with key k set to t. */
  function Without(d: StateDict, key: Key): (r: StateDict)
    ensures forall k :: Lookup(r, k) == if k == key then None else Lookup(d, k)
  {
    map k | k in d && k != key :: d[k]
  }

  function With(d: StateDict, key: Key, t: Tensor): (r: StateDict)
    ensures forall k :: Lookup(r, k) == if k == key then Some(t) else Lookup(d, k)
  {
    map k | k in d.Keys + {key} :: if k == key then t else d[k]
  }

  lemma SameLookups(a: StateDict, b: StateDict)
    requires forall k :: Lookup(a, k) == Lookup(b, k)
    ensures a == b
  {
    forall k ensures k in a <==> k in b {
      assert Lookup(a, k) == Lookup(b, k);
    }
    forall k | k in a ensures a[k] == b[k] {
      assert Lookup(a, k) == Lookup(b, k);
    }
  }

  // ---------- stacking ----------

  predicate SameShape(parts: seq<Tensor>) {
    forall i :: 0 <= i < |parts| ==> parts[i].shape == parts[0].shape
  }

  function Types(parts: seq<Tensor>): (r: seq<ValueType>)
    ensures |r| == |parts|
  {
    seq(|parts|, i requires 0 <= i < |parts| => parts[i].vtype)
  }

  function Values(parts: seq<Tensor>): (r: seq<seq<int>>)
    ensures |r| == |parts|
  {
    seq(|parts|, i requires 0 <= i < |parts| => parts[i].values)
  }

  lemma {:induction false} FlatRow(rows: seq<seq<int>>, size: nat, j: nat, start: nat)
    requires AllOfSize(rows, size) && j < |rows| && start == j * size
    ensures |Flatten(rows)| == |rows| * size && start + size <= |rows| * size
    ensures Flatten(rows)[start..start + size] == rows[j]
  {
    FlatLength(j - 1, size);
    FlatLength(|rows| - 1, size);
    if j > 0 {
      FlatRow(rows[1..], size, j - 1, start - size);
    } else if |rows| > 1 {
      FlatRow(rows[1..], size, 0, 0);
    }
  }

  /** torch.stack */
  function Stack(parts: seq<Tensor>): Tensor
    requires parts != [] && SameShape(parts)
  {
    FlatRow(Values(parts), Numel(parts[0].shape), 0, 0);
    Elements(PromoteAll(Types(parts)).value, [|parts|] + parts[0].shape, Flatten(Values(parts)))
  }

  /** t[j] */
  function Row(t: Tensor, j: nat): Tensor
    requires HasRow(t, j)
  {
    var size := Numel(t.shape[1..]);
    Monotone(j + 1, t.shape[0], size);
    FlatLength(j, size);
    Elements(t.vtype, t.shape[1..], t.values[j * size..j * size + size])
  }

  /** Row j of a stack is part j, in the type promoted over the parts. */
  lemma RowOfStack(parts: seq<Tensor>, j: nat)
    requires j < |parts| && SameShape(parts)
    ensures Row(Stack(parts), j) == parts[j].(vtype := Stack(parts).vtype)
  {
    var size := Numel(parts[0].shape);
    FlatRow(Values(parts), size, j, j * size);
    assert Stack(parts).shape[1..] == parts[0].shape;
  }

  lemma {:induction false} PromoteSame(types: seq<ValueType>)
    requires types != []
    ensures (forall i :: 0 <= i < |types| ==> types[i] == types[0]) ==> PromoteAll(types) == Some(types[0])
  {
    if |types| > 1 {
      PromoteSame(types[..|types| - 1]);
    }
  }

  // ---------- one layer and projection ----------

  datatype Unit = Unit(layer: nat, proj: Proj)

  /** The key is that of one of the experts of u. */
  predicate IsExpertOf(k: Key, u: Unit, experts: nat) {
    k.Expert? && k.layer == u.layer && k.proj == u.proj && k.expert < experts
  }

  function ExpertKey(u: Unit, j: nat): Key {
    Expert(u.layer, j, u.proj)
  }

  function StackedKey(u: Unit): Key {
    Stacked(u.layer, u.proj)
  }

  predicate HasExperts(d: StateDict, u: Unit, experts: nat) {
    forall j :: 0 <= j < experts ==> ExpertKey(u, j) in d
  }

  function Parts(d: StateDict, u: Unit, experts: nat): (r: seq<Tensor>)
    requires HasExperts(d, u, experts)
    ensures |r| == experts && forall j :: 0 <= j < experts ==> r[j] == d[ExpertKey(u, j)]
  {
    seq(experts, j requires 0 <= j < experts => d[ExpertKey(u, j)])
  }

  /** The experts of u are all there, there are some, and they have one shape. */
  predicate Stackable(d: StateDict, u: Unit, experts: nat) {
    experts > 0 && HasExperts(d, u, experts) && SameShape(Parts(d, u, experts))
  }

  /** Pops the experts of u and inserts their stack; None is the error of a missing
      key, or of stacking nothing or tensors of different shapes. */
  method MergeUnit(d: StateDict, u: Unit, experts: nat) returns (r: Option<StateDict>)
    ensures r.Some? <==> Stackable(d, u, experts)
    ensures r.Some? ==> Lookup(r.value, StackedKey(u)) == Some(Stack(Parts(d, u, experts)))
    ensures r.Some? ==> forall k :: k != StackedKey(u) ==>
              Lookup(r.value, k) == if IsExpertOf(k, u, experts) then None else Lookup(d, k)
  {
    var m: StateDict := d;
    var parts: seq<Tensor> := [];
    for j := 0 to experts
      invariant |parts| == j && forall i :: 0 <= i < j ==> Lookup(d, ExpertKey(u, i)) == Some(parts[i])
      invariant forall k :: Lookup(m, k) == if IsExpertOf(k, u, j) then None else Lookup(d, k)
    {
      var key := ExpertKey(u, j);
      assert Lookup(m, key) == Lookup(d, key);
      if key !in m {
        return None;
      }
      parts := parts + [m[key]];
      m := Without(m, key);
    }
    assert forall j :: 0 <= j < experts ==> Lookup(d, ExpertKey(u, j)).Some?;
    assert parts == Parts(d, u, experts);
    if parts == [] || !SameShape(parts) {
      return None;
    }
    return Some(With(m, StackedKey(u), Stack(parts)));
  }

  /** Pops the stack of u, if there is one, and inserts its parts; None is the error
      of a stack with too few parts. */
  method SplitUnit(d: StateDict, u: Unit, experts: nat) returns (r: Option<StateDict>)
    ensures r.Some? <==> StackedKey(u) !in d || Divides(d[StackedKey(u)], experts)
    ensures r.Some? ==> forall k :: Lookup(r.value, k) == Unstacked(d, u, experts, k)
  {
    var stackedKey := StackedKey(u);
    if stackedKey !in d {
      return Some(d);
    }
    var stacked := d[stackedKey];
    var m: StateDict := Without(d, stackedKey);
    for j := 0 to experts
      invariant j == 0 || Divides(stacked, j)
      invariant forall k :: Lookup(m, k) == Unstacked(d, u, j, k)
    {
      if !HasRow(stacked, j) {
        return None;
      }
      m := With(m, ExpertKey(u, j), Row(stacked, j));
    }
    return Some(m);
  }

  predicate Divides(t: Tensor, experts: nat) {
    experts == 0 || (t.shape != [] && experts <= t.shape[0])
  }

  /** t[j] exists. */
  predicate HasRow(t: Tensor, j: nat) {
    t.shape != [] && j < t.shape[0]
  }

  /** Every expert finds its row. */
  lemma DividesIff(t: Tensor, experts: nat)
    ensures Divides(t, experts) <==> forall j :: 0 <= j < experts ==> HasRow(t, j)
  {
    if experts > 0 && !Divides(t, experts) {
      assert !HasRow(t, experts - 1);
    }
  }

  /** What key k holds after unstacking u in d. */
  function Unstacked(d: StateDict, u: Unit, experts: nat, k: Key): Option<Tensor> {
    if StackedKey(u) !in d then Lookup(d, k)
    else if k == StackedKey(u) then None
    else if IsExpertOf(k, u, experts) then
      var t := d[StackedKey(u)];
      if HasRow(t, k.expert) then Some(Row(t, k.expert)) else None
    else Lookup(d, k)
  }

  // ---------- all layers ----------

  const PROJECTIONS := [Gate, Up, Down]

  /** m is d after merging the given units. */
  predicate MergedAt(d: StateDict, m: StateDict, units: set<Unit>, experts: nat, k: Key) {
    if k.Stacked? && Unit(k.layer, k.proj) in units then
      Stackable(d, Unit(k.layer, k.proj), experts)
      && Lookup(m, k) == Some(Stack(Parts(d, Unit(k.layer, k.proj), experts)))
    else if k.Expert? && Unit(k.layer, k.proj) in units && k.expert < experts then k !in m
    else Lookup(m, k) == Lookup(d, k)
  }

  ghost predicate IsMerged(d: StateDict, m: StateDict, units: set<Unit>, experts: nat) {
    forall k :: MergedAt(d, m, units, experts, k)
  }

  lemma MergeNext(d: StateDict, m: StateDict, m': StateDict, units: set<Unit>, u: Unit, experts: nat)
    requires IsMerged(d, m, units, experts) && u !in units && Stackable(m, u, experts)
    requires Lookup(m', StackedKey(u)) == Some(Stack(Parts(m, u, experts)))
    requires forall k :: k != StackedKey(u) ==>
               Lookup(m', k) == if IsExpertOf(k, u, experts) then None else Lookup(m, k)
    ensures IsMerged(d, m', units + {u}, experts)
  {
    StillThere(d, m, units, u, experts);
    forall k ensures MergedAt(d, m', units + {u}, experts, k) {
      assert MergedAt(d, m, units, experts, k);
      if k != StackedKey(u) {
        assert Lookup(m', k) == if IsExpertOf(k, u, experts) then None else Lookup(m, k);
      }
    }
  }

  /** The experts of a unit that is still to come are untouched. */
  lemma StillThere(d: StateDict, m: StateDict, units: set<Unit>, u: Unit, experts: nat)
    requires IsMerged(d, m, units, experts) && u !in units
    ensures HasExperts(m, u, experts) <==> HasExperts(d, u, experts)
    ensures HasExperts(d, u, experts) ==> Parts(m, u, experts) == Parts(d, u, experts)
  {
    forall j | 0 <= j < experts ensures Lookup(m, ExpertKey(u, j)) == Lookup(d, ExpertKey(u, j)) {
      assert MergedAt(d, m, units, experts, ExpertKey(u, j));
    }
    assert forall j :: 0 <= j < experts ==> (ExpertKey(u, j) in m <==> Lookup(m, ExpertKey(u, j)).Some?);
    assert forall j :: 0 <= j < experts ==> (ExpertKey(u, j) in d <==> Lookup(d, ExpertKey(u, j)).Some?);
    if HasExperts(d, u, experts) {
      assert forall j :: 0 <= j < experts ==> Lookup(m, ExpertKey(u, j)) == Lookup(d, ExpertKey(u, j));
    }
  }

  /** The units handled before projection p of layer i. */
  ghost predicate Handled(units: set<Unit>, first: nat, i: nat, p: nat) {
    forall u :: u in units <==> first <= u.layer < i || (u.layer == i && Position(u.proj) < p)
  }

  function Position(proj: Proj): nat {
    match proj
    case Gate => 0
    case Up => 1
    case Down => 2
  }

  ghost predicate Covers(units: set<Unit>, first: nat, layers: nat) {
    forall u :: u in units <==> first <= u.layer < layers
  }

  /** The number of experts and the first layer with experts, as moe_merge reads them. */
  function Experts(config: Config): Option<nat> {
    if config.numExperts.Some? then config.numExperts else config.nRoutedExperts
  }

  function FirstLayer(config: Config): nat {
    if config.firstKDenseReplace.Some? then config.firstKDenseReplace.value else 0
  }

  ghost predicate AllStackable(d: StateDict, first: nat, layers: nat, experts: nat) {
    forall u: Unit :: first <= u.layer < layers ==> Stackable(d, u, experts)
  }

  ghost predicate Mergeable(d: StateDict, config: Config) {
    Experts(config).Some? && AllStackable(d, FirstLayer(config), config.layers, Experts(config).value)
  }

  /** moe_merge: None when the number of experts is not configured, a key is missing,
      or the experts of a layer cannot be stacked. */
  method Merge(d: StateDict, config: Config) returns (r: Option<StateDict>, ghost units: set<Unit>)
    ensures r.Some? <==> Mergeable(d, config)
    ensures r.Some? ==> Covers(units, FirstLayer(config), config.layers)
                        && IsMerged(d, r.value, units, Experts(config).value)
    ensures r.Some? ==> LeavesDense(d, r.value, config.firstKDenseReplace, config.layers, Experts(config).value)
  {
    var experts;
    if config.numExperts.Some? {
      experts := config.numExperts.value;
    } else if config.nRoutedExperts.Some? {
      experts := config.nRoutedExperts.value;
    } else {
      return None, {};
    }
    var first, layers := FirstLayer(config), config.layers;
    var m := d;
    units := {};
    var i := first;
    while i < layers
      invariant first <= i && IsMerged(d, m, units, experts) && Handled(units, first, i, 0)
      invariant i <= layers || i == first
      invariant forall u :: u in units ==> Stackable(d, u, experts)
    {
      for p := 0 to 3
        invariant IsMerged(d, m, units, experts) && Handled(units, first, i, p)
        invariant forall u :: u in units ==> Stackable(d, u, experts)
      {
        var u := Unit(i, PROJECTIONS[p]);
        StillThere(d, m, units, u, experts);
        var next := MergeUnit(m, u, experts);
        if next.None? {
          return None, units;
        }
        MergeNext(d, m, next.value, units, u, experts);
        m := next.value;
        units := units + {u};
      }
      i := i + 1;
    }
    MergedLayers(d, m, config, experts, units);
    return Some(m), units;
  }

  /** The keys of the first k layers are left as they are, and the experts of all other
      layers are gone; without k, of all layers. */
  ghost predicate LeavesDense(d: StateDict, m: StateDict, dense: Option<nat>, layers: nat, experts: nat) {
    match dense
    case Some(k) =>
      && (forall key: Key :: !key.Other? && key.layer < k ==> Lookup(m, key) == Lookup(d, key))
      && (forall key: Key :: key.Expert? && k <= key.layer < layers && key.expert < experts ==> key !in m)
    case None => forall key: Key :: key.Expert? && key.layer < layers && key.expert < experts ==> key !in m
  }

  lemma MergedLayers(d: StateDict, m: StateDict, config: Config, experts: nat, units: set<Unit>)
    requires Covers(units, FirstLayer(config), config.layers) && IsMerged(d, m, units, experts)
    ensures LeavesDense(d, m, config.firstKDenseReplace, config.layers, experts)
  {
    var first := FirstLayer(config);
    forall key: Key | !key.Other? && key.layer < first ensures Lookup(m, key) == Lookup(d, key) {
      assert MergedAt(d, m, units, experts, key);
    }
    forall key: Key | key.Expert? && first <= key.layer < config.layers && key.expert < experts ensures key !in m {
      assert MergedAt(d, m, units, experts, key) && Unit(key.layer, key.proj) in units;
    }
  }

  /** Experts are needed in every layer from the configured number of dense layers on,
      and in every layer when none is configured. */
  lemma MergeableIff(d: StateDict, config: Config, experts: nat)
    requires config.numExperts == Some(experts) || (config.numExperts.None? && config.nRoutedExperts == Some(experts))
    ensures Mergeable(d, config)
            <==> forall u: Unit :: u.layer < config.layers
                                   && (forall k :: config.firstKDenseReplace == Some(k) ==> k <= u.layer)
                                   ==> Stackable(d, u, experts)
  {
    forall u: Unit
      ensures (forall k :: config.firstKDenseReplace == Some(k) ==> k <= u.layer) <==> FirstLayer(config) <= u.layer
    {
      assert config.firstKDenseReplace.Some? ==> config.firstKDenseReplace == Some(FirstLayer(config));
    }
  }

  /** Two layers, the first one dense: with the entry they are merged, without it the
      experts of the dense layer are missing. */
  lemma OneDenseLayer(d: StateDict)
    requires forall key: Key :: key.Expert? ==> (key in d <==> key.layer == 1 && key.expert == 0)
    ensures Mergeable(d, Config(2, Some(1), None, Some(1))) && !Mergeable(d, Config(2, Some(1), None, None))
  {
    forall u: Unit | u.layer == 1 ensures Stackable(d, u, 1) {
      assert |Parts(d, u, 1)| == 1;
    }
    assert ExpertKey(Unit(0, Gate), 0) !in d;
    assert !Stackable(d, Unit(0, Gate), 1);
  }

  /** s is m after unstacking the given units. */
  predicate SplitAt(m: StateDict, s: StateDict, units: set<Unit>, experts: nat, k: Key) {
    Lookup(s, k) == if !k.Other? && Unit(k.layer, k.proj) in units then Unstacked(m, Unit(k.layer, k.proj), experts, k)
                    else Lookup(m, k)
  }

  ghost predicate IsSplit(m: StateDict, s: StateDict, units: set<Unit>, experts: nat) {
    forall k :: SplitAt(m, s, units, experts, k)
  }

  lemma SplitNext(m: StateDict, s: StateDict, s': StateDict, units: set<Unit>, u: Unit, experts: nat)
    requires IsSplit(m, s, units, experts) && u !in units
    requires forall k :: Lookup(s', k) == Unstacked(s, u, experts, k)
    ensures IsSplit(m, s', units + {u}, experts)
  {
    assert SplitAt(m, s, units, experts, StackedKey(u));
    forall k ensures SplitAt(m, s', units + {u}, experts, k) {
      assert SplitAt(m, s, units, experts, k);
      assert Lookup(s', k) == Unstacked(s, u, experts, k);
    }
  }

  predicate UnitDivides(m: StateDict, u: Unit, experts: nat) {
    StackedKey(u) !in m || Divides(m[StackedKey(u)], experts)
  }

  ghost predicate AllDivide(m: StateDict, layers: nat, experts: nat) {
    forall u: Unit :: u.layer < layers ==> UnitDivides(m, u, experts)
  }

  /** moe_split: None when num_experts is not configured or a stack has too few parts. */
  method Split(m: StateDict, config: Config) returns (r: Option<StateDict>, ghost units: set<Unit>)
    ensures r.Some? <==> config.numExperts.Some? && AllDivide(m, config.layers, config.numExperts.value)
    ensures r.Some? ==> Covers(units, 0, config.layers) && IsSplit(m, r.value, units, config.numExperts.value)
  {
    if config.numExperts.None? {
      return None, {};
    }
    var experts, layers := config.numExperts.value, config.layers;
    var s := m;
    units := {};
    for i := 0 to layers
      invariant IsSplit(m, s, units, experts) && Handled(units, 0, i, 0)
      invariant forall u :: u in units ==> UnitDivides(m, u, experts)
    {
      for p := 0 to 3
        invariant IsSplit(m, s, units, experts) && Handled(units, 0, i, p)
        invariant forall u :: u in units ==> UnitDivides(m, u, experts)
      {
        var u := Unit(i, PROJECTIONS[p]);
        assert SplitAt(m, s, units, experts, StackedKey(u));
        var next := SplitUnit(s, u, experts);
        if next.None? {
          assert !UnitDivides(m, u, experts);
          return None, units;
        }
        SplitNext(m, s, next.value, units, u, experts);
        s := next.value;
        units := units + {u};
      }
    }
    return Some(s), units;
  }

  // ---------- round trip ----------

  predicate NoStack(d: StateDict, u: Unit) {
    StackedKey(u) !in d
  }

  ghost predicate NoStacks(d: StateDict, layers: nat) {
    forall u: Unit :: u.layer < layers ==> NoStack(d, u)
  }

  predicate OneType(d: StateDict, u: Unit, experts: nat)
    requires HasExperts(d, u, experts)
  {
    forall j :: 0 <= j < experts ==> d[ExpertKey(u, j)].vtype == d[ExpertKey(u, 0)].vtype
  }

  ghost predicate OneTypeEach(d: StateDict, first: nat, layers: nat, experts: nat)
    requires AllStackable(d, first, layers, experts)
  {
    forall u: Unit :: first <= u.layer < layers ==> OneType(d, u, experts)
  }

  /** What the two scripts leave under key k: an expert's tensor is converted to the
      type promoted over the experts. */
  function Restored(d: StateDict, first: nat, layers: nat, experts: nat, k: Key): Option<Tensor> {
    if k.Expert? && first <= k.layer < layers && k.expert < experts && Stackable(d, Unit(k.layer, k.proj), experts) then
      var parts := Parts(d, Unit(k.layer, k.proj), experts);
      Some(parts[k.expert].(vtype := Stack(parts).vtype))
    else
      Lookup(d, k)
  }

  lemma RestoredAt(d: StateDict, m: StateDict, s: StateDict, first: nat, layers: nat, experts: nat,
                   merged: set<Unit>, split: set<Unit>, k: Key)
    requires AllStackable(d, first, layers, experts) && NoStacks(d, layers)
    requires Covers(merged, first, layers) && IsMerged(d, m, merged, experts)
    requires Covers(split, 0, layers) && IsSplit(m, s, split, experts)
    ensures Lookup(s, k) == Restored(d, first, layers, experts, k)
  {
    assert SplitAt(m, s, split, experts, k) && MergedAt(d, m, merged, experts, k);
    if !k.Other? && k.layer < layers {
      var u := Unit(k.layer, k.proj);
      assert NoStack(d, u);
      assert MergedAt(d, m, merged, experts, StackedKey(u));
      if first <= k.layer && IsExpertOf(k, u, experts) {
        RowOfStack(Parts(d, u, experts), k.expert);
      }
    }
  }

  /** Stacking keeps the type of every expert if and only if they have one type. */
  lemma OneTypeIff(d: StateDict, u: Unit, experts: nat)
    requires Stackable(d, u, experts)
    ensures var t := Stack(Parts(d, u, experts)).vtype;
            OneType(d, u, experts) <==> forall j :: 0 <= j < experts ==> d[ExpertKey(u, j)].vtype == t
  {
    PromoteSame(Types(Parts(d, u, experts)));
  }

  lemma KeepsTypes(d: StateDict, first: nat, layers: nat, experts: nat)
    requires AllStackable(d, first, layers, experts) && OneTypeEach(d, first, layers, experts)
    ensures forall k :: Restored(d, first, layers, experts, k) == Lookup(d, k)
  {
    forall k ensures Restored(d, first, layers, experts, k) == Lookup(d, k) {
      if k.Expert? && first <= k.layer < layers && k.expert < experts {
        var u := Unit(k.layer, k.proj);
        OneTypeIff(d, u, experts);
        assert OneType(d, u, experts) && k == ExpertKey(u, k.expert);
      }
    }
  }

  lemma ChangesTypes(d: StateDict, first: nat, layers: nat, experts: nat, u: Unit) returns (k: Key)
    requires AllStackable(d, first, layers, experts)
    requires first <= u.layer < layers && !OneType(d, u, experts)
    ensures Restored(d, first, layers, experts, k) != Lookup(d, k)
  {
    OneTypeIff(d, u, experts);
    var j :| 0 <= j < experts && d[ExpertKey(u, j)].vtype != Stack(Parts(d, u, experts)).vtype;
    k := ExpertKey(u, j);
  }

  /** Splitting a merged state dict restores it if and only if it held no stacked key
      of its own and the experts of a layer and projection have one type: no key is
      lost, duplicated or left stacked. */
  lemma RoundTripIff(d: StateDict, m: StateDict, s: StateDict, first: nat, layers: nat, experts: nat,
                     merged: set<Unit>, split: set<Unit>)
    requires AllStackable(d, first, layers, experts)
    requires Covers(merged, first, layers) && IsMerged(d, m, merged, experts)
    requires Covers(split, 0, layers) && IsSplit(m, s, split, experts)
    ensures s == d <==> NoStacks(d, layers) && OneTypeEach(d, first, layers, experts)
  {
    if !NoStacks(d, layers) {
      var u: Unit :| u.layer < layers && !NoStack(d, u);
      assert SplitAt(m, s, split, experts, StackedKey(u));
    } else {
      forall k ensures Lookup(s, k) == Restored(d, first, layers, experts, k) {
        RestoredAt(d, m, s, first, layers, experts, merged, split, k);
      }
      if OneTypeEach(d, first, layers, experts) {
        KeepsTypes(d, first, layers, experts);
        SameLookups(s, d);
      } else {
        var u: Unit :| first <= u.layer < layers && !OneType(d, u, experts);
        var k := ChangesTypes(d, first, layers, experts, u);
      }
    }
  }

  /** Merging always leaves something that can be split. */
  lemma MergedDivides(d: StateDict, m: StateDict, first: nat, layers: nat, experts: nat, units: set<Unit>)
    requires Covers(units, first, layers) && IsMerged(d, m, units, experts) && NoStacks(d, layers)
    ensures AllDivide(m, layers, experts)
  {
    forall u: Unit | u.layer < layers ensures UnitDivides(m, u, experts) {
      assert MergedAt(d, m, units, experts, StackedKey(u)) && NoStack(d, u);
    }
  }

  /** The two scripts give back the state dict. */
  ghost predicate Restores(d: StateDict, config: Config) {
    && config.numExperts.Some?
    && AllStackable(d, FirstLayer(config), config.layers, config.numExperts.value)
    && NoStacks(d, config.layers)
    && OneTypeEach(d, FirstLayer(config), config.layers, config.numExperts.value)
  }

  /** The two scripts one after the other, with one configuration. */
  method MergeThenSplit(d: StateDict, config: Config) returns (r: Option<StateDict>)
    ensures r == Some(d) <==> Restores(d, config)
    ensures NoStacks(d, config.layers) ==> (r.Some? <==> config.numExperts.Some? && Mergeable(d, config))
    ensures r.Some? ==> config.numExperts.Some?
    ensures r.Some? && NoStacks(d, config.layers) ==>
              forall k :: Lookup(r.value, k)
                          == Restored(d, FirstLayer(config), config.layers, config.numExperts.value, k)
  {
    var m;
    ghost var merged;
    m, merged := Merge(d, config);
    if m.None? {
      return None;
    }
    var first, layers, experts := FirstLayer(config), config.layers, Experts(config).value;
    if NoStacks(d, layers) {
      MergedDivides(d, m.value, first, layers, experts, merged);
    }
    ghost var split;
    r, split := Split(m.value, config);
    if r.Some? {
      RoundTripIff(d, m.value, r.value, first, layers, experts, merged, split);
      if NoStacks(d, layers) {
        forall k ensures Lookup(r.value, k) == Restored(d, first, layers, experts, k) {
          RestoredAt(d, m.value, r.value, first, layers, experts, merged, split, k);
        }
      }
    }
  }
}
