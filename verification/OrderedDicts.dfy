/** Insertion-ordered dictionaries from names to items, as sequences of their items. */
module OrderedDicts {
  import opened Sequences

  /** Assignment: a name that is there keeps its place. */
  function Put<T>(name: T -> string, d: seq<T>, t: T): seq<T> {
    if d == [] then [t]
    else if name(d[0]) == name(t) then [t] + d[1..]
    else [d[0]] + Put(name, d[1..], t)
  }

  predicate HasItem<T>(name: T -> string, d: seq<T>, n: string) {
    exists i :: 0 <= i < |d| && name(d[i]) == n
  }

  predicate DistinctItems<T>(name: T -> string, d: seq<T>) {
    forall i, j :: 0 <= i < j < |d| ==> name(d[i]) != name(d[j])
  }

  lemma {:induction false} PutNew<T>(name: T -> string, d: seq<T>, t: T)
    requires !HasItem(name, d, name(t))
    ensures Put(name, d, t) == d + [t]
  {
    if d != [] {
      assert forall i :: 0 <= i < |d| ==> name(d[i]) != name(t);
      PutNew(name, d[1..], t);
    }
  }

  lemma {:induction false} PutKeeps<T>(name: T -> string, d: seq<T>, t: T)
    ensures |d| <= |Put(name, d, t)| <= |d| + 1 && Put(name, d, t) != []
    ensures HasItem(name, d, name(t)) ==> |Put(name, d, t)| == |d|
  {
    if d != [] {
      PutKeeps(name, d[1..], t);
      if name(d[0]) != name(t) && HasItem(name, d, name(t)) {
        var i :| 0 <= i < |d| && name(d[i]) == name(t);
        assert name(d[1..][i - 1]) == name(t);
      }
    }
  }

  /** The dictionary after these assignments, one after the other. */
  function Dict<T>(name: T -> string, all: seq<T>): seq<T> {
    if all == [] then [] else Put(name, Dict(name, all[..|all| - 1]), all[|all| - 1])
  }

  function Dicts<T>(name: T -> string, buckets: seq<seq<T>>): seq<seq<T>> {
    if buckets == [] then [] else Dicts(name, buckets[..|buckets| - 1]) + [Dict(name, buckets[|buckets| - 1])]
  }

  lemma DictAppend<T>(name: T -> string, all: seq<T>, t: T)
    ensures Dict(name, all + [t]) == Put(name, Dict(name, all), t)
  {
    assert (all + [t])[..|all|] == all;
  }

  lemma DictsAppend<T>(name: T -> string, buckets: seq<seq<T>>, bucket: seq<T>)
    ensures Dicts(name, buckets + [bucket]) == Dicts(name, buckets) + [Dict(name, bucket)]
  {
    assert (buckets + [bucket])[..|buckets|] == buckets;
  }

  lemma {:induction false} DictSize<T>(name: T -> string, all: seq<T>)
    ensures |Dict(name, all)| <= |all| && (Dict(name, all) == [] <==> all == [])
  {
    if all != [] {
      DictSize(name, all[..|all| - 1]);
      PutKeeps(name, Dict(name, all[..|all| - 1]), all[|all| - 1]);
    }
  }

  lemma DistinctLast<T>(name: T -> string, all: seq<T>)
    requires all != []
    ensures var n := |all| - 1;
            DistinctItems(name, all) <==> DistinctItems(name, all[..n]) && !HasItem(name, all[..n], name(all[n]))
  {
    var n := |all| - 1;
    assert forall i :: 0 <= i < n ==> all[..n][i] == all[i];
  }

  /** A dictionary holds all items assigned, in order, if and only if no name is
      repeated: a repeated name overwrites the earlier item. */
  lemma {:induction false} DictIsIff<T>(name: T -> string, all: seq<T>)
    ensures Dict(name, all) == all <==> DistinctItems(name, all)
    ensures !DistinctItems(name, all) ==> |Dict(name, all)| < |all|
  {
    if all != [] {
      var n := |all| - 1;
      DictIsIff(name, all[..n]);
      DictSize(name, all[..n]);
      PutKeeps(name, Dict(name, all[..n]), all[n]);
      DistinctLast(name, all);
      assert all == all[..n] + [all[n]];
      if DistinctItems(name, all) {
        PutNew(name, all[..n], all[n]);
      }
    }
  }

  predicate NoneRepeats<T>(name: T -> string, buckets: seq<seq<T>>) {
    forall i :: 0 <= i < |buckets| ==> DistinctItems(name, buckets[i])
  }

  lemma {:induction false} DictsKeepIff<T>(name: T -> string, buckets: seq<seq<T>>)
    ensures |Flatten(Dicts(name, buckets))| <= |Flatten(buckets)|
    ensures if NoneRepeats(name, buckets) then Dicts(name, buckets) == buckets
            else |Flatten(Dicts(name, buckets))| < |Flatten(buckets)|
  {
    if buckets != [] {
      var n := |buckets| - 1;
      assert buckets == buckets[..n] + [buckets[n]];
      FlattenAppend(buckets[..n], buckets[n]);
      FlattenAppend(Dicts(name, buckets[..n]), Dict(name, buckets[n]));
      DictsKeepIff(name, buckets[..n]);
      DictIsIff(name, buckets[n]);
    }
  }

  /** Items that are distinct altogether are distinct in every bucket. */
  lemma {:induction false} DistinctBuckets<T>(name: T -> string, buckets: seq<seq<T>>)
    requires DistinctItems(name, Flatten(buckets))
    ensures NoneRepeats(name, buckets)
  {
    if buckets != [] {
      var n := |buckets| - 1;
      var first, last := Flatten(buckets[..n]), buckets[n];
      assert buckets == buckets[..n] + [last];
      FlattenAppend(buckets[..n], last);
      assert forall i :: 0 <= i < |first| ==> first[i] == Flatten(buckets)[i];
      assert forall i :: 0 <= i < |last| ==> last[i] == Flatten(buckets)[|first| + i];
      DistinctBuckets(name, buckets[..n]);
    }
  }
}
