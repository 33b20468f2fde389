/** The batching of gathers in the delta engine changes the order in which the slots
    reach the buckets, but neither the slots nor, unless they conflict, their effect
    (verl/checkpoint_engine/delta_checkpoint_engine.py, _GatherQueue, _bucket_slot_delta). */
module DeltaRounds {
  import opened DeltaBuckets
  import opened DeltaWire
  import opened GatherQueues
  import opened Sequences
  import opened ValueTypes
  import opened WeightChunks
  import opened WeightDeltas

  type SlotPut<G> = Put<G, Entry>

  /** All slots, in the order in which the backend yields them. */
  function PutSlots<G>(puts: seq<SlotPut<G>>): seq<FlushPiece> {
    if puts == [] then [] else PutSlots(puts[..|puts| - 1]) + puts[|puts| - 1].entry
  }

  // ---------- the same slots ----------

  lemma {:induction false} SlotToEntry<G>(rounds: seq<Round<G, Entry>>, p: FlushPiece) returns (g: G, e: Entry)
    requires p in SlotsOf(rounds)
    ensures e in FlushedFor(rounds, g) && p in e
  {
    var n := |rounds| - 1;
    if p in SlotsOf(rounds[..n]) {
      g, e := SlotToEntry(rounds[..n], p);
    } else {
      InFlatten(rounds[n].batch, p);
      g, e :| g == rounds[n].group && e in rounds[n].batch && p in e;
    }
  }

  lemma {:induction false} EntryToSlot<G>(rounds: seq<Round<G, Entry>>, g: G, e: Entry, p: FlushPiece)
    requires e in FlushedFor(rounds, g) && p in e
    ensures p in SlotsOf(rounds)
  {
    var n := |rounds| - 1;
    if e in FlushedFor(rounds[..n], g) {
      EntryToSlot(rounds[..n], g, e, p);
    } else {
      InFlatten(rounds[n].batch, p);
    }
  }

  lemma {:induction false} SlotToPut<G>(puts: seq<SlotPut<G>>, p: FlushPiece) returns (g: G, e: Entry)
    requires p in PutSlots(puts)
    ensures e in EntriesOf(puts, g) && p in e
  {
    var n := |puts| - 1;
    if p in PutSlots(puts[..n]) {
      g, e := SlotToPut(puts[..n], p);
    } else {
      g, e := puts[n].group, puts[n].entry;
    }
  }

  lemma {:induction false} PutToSlot<G>(puts: seq<SlotPut<G>>, g: G, e: Entry, p: FlushPiece)
    requires e in EntriesOf(puts, g) && p in e
    ensures p in PutSlots(puts)
  {
    var n := |puts| - 1;
    if e in EntriesOf(puts[..n], g) {
      PutToSlot(puts[..n], g, e, p);
    }
  }

  /** The rounds carry exactly the slots that were put. */
  lemma RoundsCarrySlots<G>(puts: seq<SlotPut<G>>, batchK: nat, p: FlushPiece)
    ensures p in SlotsOf(AllRounds(puts, batchK)) <==> p in PutSlots(puts)
  {
    if p in SlotsOf(AllRounds(puts, batchK)) {
      var g, e := SlotToEntry(AllRounds(puts, batchK), p);
      FlushedOnceInOrder(puts, g, batchK);
      PutToSlot(puts, g, e, p);
    }
    if p in PutSlots(puts) {
      var g, e := SlotToPut(puts, p);
      FlushedOnceInOrder(puts, g, batchK);
      EntryToSlot(AllRounds(puts, batchK), g, e, p);
    }
  }

  // ---------- the same effect ----------

  /** Whatever the batching, applying the slots as they reach the buckets is applying
      them in the order in which the backend yields them, when no two of them give
      different values to one element. */
  lemma BatchingIsTransparent<G>(ws: Weights, puts: seq<SlotPut<G>>, batchK: nat)
    requires AllFit(ws, PutSlots(puts)) && Compatible(PutSlots(puts))
    ensures AllFit(ws, SlotsOf(AllRounds(puts, batchK)))
    ensures ApplyPieces(ws, SlotsOf(AllRounds(puts, batchK))) == ApplyPieces(ws, PutSlots(puts))
  {
    var a, b := SlotsOf(AllRounds(puts, batchK)), PutSlots(puts);
    SameSlots(ws, puts, batchK);
    ApplyKeepsShape(ws, a);
    ApplyKeepsShape(ws, b);
    forall name | name in ws ensures ApplyPieces(ws, a)[name] == ApplyPieces(ws, b)[name] {
      forall x | 0 <= x < |ws[name]| ensures ApplyPieces(ws, a)[name][x] == ApplyPieces(ws, b)[name][x] {
        SameEffect(ws, a, b, name, x);
      }
    }
  }

  lemma SameSlots<G>(ws: Weights, puts: seq<SlotPut<G>>, batchK: nat)
    requires AllFit(ws, PutSlots(puts)) && Compatible(PutSlots(puts))
    ensures var a := SlotsOf(AllRounds(puts, batchK));
            AllFit(ws, a) && Compatible(a) && forall p :: p in a <==> p in PutSlots(puts)
  {
    var a, b := SlotsOf(AllRounds(puts, batchK)), PutSlots(puts);
    forall p: FlushPiece ensures p in a <==> p in b {
      RoundsCarrySlots(puts, batchK, p);
    }
    forall i | 0 <= i < |a| ensures Fits(ws, a[i]) {
      assert a[i] in b;
    }
  }

  lemma SameEffect(ws: Weights, a: seq<FlushPiece>, b: seq<FlushPiece>, name: string, x: nat)
    requires AllFit(ws, a) && Compatible(a) && AllFit(ws, b) && Compatible(b) && name in ws && x < |ws[name]|
    requires forall p :: p in a <==> p in b
    ensures name in ApplyPieces(ws, a) && |ApplyPieces(ws, a)[name]| == |ws[name]|
    ensures name in ApplyPieces(ws, b) && |ApplyPieces(ws, b)[name]| == |ws[name]|
    ensures ApplyPieces(ws, a)[name][x] == ApplyPieces(ws, b)[name][x]
  {
    EffectAt(ws, a, name, x);
    EffectAt(ws, b, name, x);
    if p :| p in a && Gives(p, name, x) {
      assert p in b;
    }
  }

  /** Two deltas of one parameter, put for different groups, that give one element
      different values: the batching decides which one is applied last. */
  lemma ConflictsDependOnBatching()
    ensures var p, q := Single(1), Single(2);
            var puts := [Put(1, [p]), Put(2, [q]), Put(2, [q])];
            var ws: Weights := map["w" := [Num(0)]];
            && ApplyPieces(ws, PutSlots(puts)) == map["w" := [Num(2)]]
            && ApplyPieces(ws, SlotsOf(AllRounds(puts, 2))) == map["w" := [Num(1)]]
  {
    var p, q := Single(1), Single(2);
    var puts := [Put(1, [p]), Put(2, [q]), Put(2, [q])];
    ConflictingRounds(puts, p, q);
    ConflictingEffects(PutSlots(puts), SlotsOf(AllRounds(puts, 2)), map["w" := [Num(0)]]);
  }

  lemma ConflictingEffects(a: seq<FlushPiece>, b: seq<FlushPiece>, ws: Weights)
    requires a == [Single(1), Single(2), Single(2)] && b == [Single(2), Single(2), Single(1)]
    requires ws.Keys == {"w"} && |ws["w"]| == 1
    ensures ApplyPieces(ws, a) == map["w" := [Num(2)]] && ApplyPieces(ws, b) == map["w" := [Num(1)]]
  {
    ApplyThree(ws, 1, 2, 2);
    ApplyThree(ws, 2, 2, 1);
  }

  lemma ApplyThree(ws: Weights, a: int, b: int, c: int)
    requires ws.Keys == {"w"} && |ws["w"]| == 1
    ensures ApplyPieces(ws, [Single(a), Single(b), Single(c)]) == map["w" := [Num(c)]]
  {
    var p, q, r := Single(a), Single(b), Single(c);
    ApplySingle(ws, a);
    ApplySingle(map["w" := [Num(a)]], b);
    ApplySingle(map["w" := [Num(b)]], c);
    ThreePieces(ws, p, q, r);
  }

  lemma ThreePieces(ws: Weights, p: FlushPiece, q: FlushPiece, r: FlushPiece)
    ensures ApplyPieces(ws, [p, q, r]) == ApplyPiece(ApplyPiece(ApplyPiece(ws, p), q), r)
  {
    ApplyPiecesAppend(ws, [], p);
    ApplyPiecesAppend(ws, [p], q);
    ApplyPiecesAppend(ws, [p, q], r);
    assert [] + [p] == [p] && [p] + [q] == [p, q] && [p, q] + [r] == [p, q, r];
  }

  function Single(value: int): FlushPiece {
    FlushPiece("w", "float32", [1], Float32, [0], [Num(value)])
  }

  lemma ApplySingle(ws: Weights, value: int)
    requires ws.Keys == {"w"} && |ws["w"]| == 1
    ensures ApplyPiece(ws, Single(value)) == map["w" := [Num(value)]]
  {
    var p := Single(value);
    assert Numel([1]) == 1 * Numel([1][1..]) == 1;
    assert WellFormed(p) && Fits(ws, p);
    MaskedAt(p, 0);
    assert Masked(p)[0] == Num(value);
    assert MaskedCopy(ws["w"], Masked(p)) == [Num(value)];
  }

  lemma ConflictingRounds(puts: seq<SlotPut<int>>, p: FlushPiece, q: FlushPiece)
    requires puts == [Put(1, [p]), Put(2, [q]), Put(2, [q])]
    ensures PutSlots(puts) == [p, q, q] && SlotsOf(AllRounds(puts, 2)) == [q, q, p]
  {
    AllThree(puts, p, q);
    ConflictingSlots(puts, Round(2, [[q], [q]]), Round(1, [[p]]), p, q);
  }

  lemma AllThree(puts: seq<SlotPut<int>>, p: FlushPiece, q: FlushPiece)
    requires puts == [Put(1, [p]), Put(2, [q]), Put(2, [q])]
    ensures Left(puts, 1, 2) == [[p]] && Left(puts, 2, 2) == [] && PutRounds(puts, 2) == [Round(2, [[q], [q]])]
    ensures Groups(puts) == [1, 2] && PutSlots(puts) == [p, q, q]
  {
    var two := [Put(1, [p]), Put(2, [q])];
    FirstTwo(two, p, q);
    assert puts == two + [Put(2, [q])] && puts[..2] == two;
    assert Left(two, 2, 2) + [[q]] == [[q], [q]];
    PutAppend(two, Put(2, [q]), 2);
  }

  lemma FirstOne(one: seq<SlotPut<int>>, p: FlushPiece)
    requires one == [Put(1, [p])]
    ensures Left(one, 1, 2) == [[p]] && Left(one, 2, 2) == [] && PutRounds(one, 2) == [] && Groups(one) == [1]
    ensures PutSlots(one) == [p]
  {
    var none: seq<SlotPut<int>> := [];
    PutAppend(none, Put(1, [p]), 2);
    assert none + [Put(1, [p])] == one && one[..0] == none;
  }

  lemma FirstTwo(two: seq<SlotPut<int>>, p: FlushPiece, q: FlushPiece)
    requires two == [Put(1, [p]), Put(2, [q])]
    ensures Left(two, 1, 2) == [[p]] && Left(two, 2, 2) == [[q]] && PutRounds(two, 2) == [] && Groups(two) == [1, 2]
    ensures PutSlots(two) == [p, q]
  {
    var one := [Put(1, [p])];
    FirstOne(one, p);
    PutAppend(one, Put(2, [q]), 2);
    assert one + [Put(2, [q])] == two && two[..1] == one;
  }

  lemma ConflictingSlots(puts: seq<SlotPut<int>>, r: Round<int, Entry>, s: Round<int, Entry>, p: FlushPiece,
                         q: FlushPiece)
    requires r == Round(2, [[q], [q]]) && s == Round(1, [[p]])
    requires Groups(puts) == [1, 2] && PutRounds(puts, 2) == [r] && Left(puts, 1, 2) == [[p]] && Left(puts, 2, 2) == []
    ensures SlotsOf(AllRounds(puts, 2)) == [q, q, p]
  {
    assert [1, 2][..1] == [1] && [1][..0] == [];
    assert FinalRounds([1], puts, 2) == [s] && FinalRounds([1, 2], puts, 2) == [s];
    assert AllRounds(puts, 2) == [r, s];
    assert [r, s][..1] == [r] && [r][..0] == [];
    FlattenPair([q], [q]);
    assert Flatten([[p]]) == [p] + Flatten([[p]][1..]) == [p];
    assert SlotsOf([r]) == [q, q];
  }

  lemma FlattenPair(a: Entry, b: Entry)
    ensures Flatten([a, b]) == a + b
  {
    assert [a, b][1..] == [b] && [b][1..] == [];
    assert Flatten([b]) == b + Flatten([][..0]) == b;
  }
}
