/** The floating-point types of tensors and their promotion. */
module ValueTypes {
  import opened Wrappers

  /** The type of a tensor of values. Conversion to a promoted type and back is exact. */
  datatype ValueType = BFloat16 | Float16 | Float32 | Float64 {
    function Size(): nat {
      match this
      case BFloat16 => 2
      case Float16 => 2
      case Float32 => 4
      case Float64 => 8
    }

    /** The bits of the exponent and of the fraction. */
    function Exponent(): nat {
      match this
      case BFloat16 => 8
      case Float16 => 5
      case Float32 => 8
      case Float64 => 11
    }

    function Fraction(): nat {
      match this
      case BFloat16 => 7
      case Float16 => 10
      case Float32 => 23
      case Float64 => 52
    }
  }

  /** torch.promote_types */
  function Promote(a: ValueType, b: ValueType): (r: ValueType)
    ensures r.Size() >= a.Size() && r.Size() >= b.Size()
  {
    if a == b then a
    else if a == Float64 || b == Float64 then Float64
    else Float32
  }

  /** The type of torch.cat of tensors of these types; none for no tensors. */
  function PromoteAll(types: seq<ValueType>): (r: Option<ValueType>)
    ensures r.Some? <==> types != []
  {
    if types == [] then None else PromoteNext(PromoteAll(types[..|types| - 1]), types[|types| - 1])
  }

  function PromoteNext(earlier: Option<ValueType>, next: ValueType): Option<ValueType> {
    Some(if earlier.Some? then Promote(earlier.value, next) else next)
  }

  // ---------- the least common type ----------

  /** Every value of b is a value of a. */
  predicate Includes(a: ValueType, b: ValueType) {
    b.Exponent() <= a.Exponent() && b.Fraction() <= a.Fraction()
  }

  /** A sign, the exponent and the fraction fill the bytes. */
  lemma SizeIs(t: ValueType)
    ensures 8 * t.Size() == 1 + t.Exponent() + t.Fraction()
  {
  }

  predicate IncludesAll(a: ValueType, types: seq<ValueType>) {
    forall i :: 0 <= i < |types| ==> Includes(a, types[i])
  }

  /** The promoted type includes exactly what it must: a type includes all the given ones
      if and only if it includes their promotion. */
  lemma {:induction false} PromoteAllIsLeast(types: seq<ValueType>, c: ValueType)
    requires types != []
    ensures Includes(c, PromoteAll(types).value) <==> IncludesAll(c, types)
  {
    var n := |types| - 1;
    assert types == types[..n] + [types[n]];
    if n > 0 {
      PromoteAllIsLeast(types[..n], c);
    }
  }
}
