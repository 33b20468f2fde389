/** Per-group batching of gathers in the delta engine
    (verl/checkpoint_engine/delta_checkpoint_engine.py, _GatherQueue). Every rank
    runs this queue on its own payloads; a round of a process group is a collective
    operation, so all ranks must perform the same rounds in the same order. */
module GatherQueues {

  /** One gather round: the group and the entries of the batch. */
  datatype Round<G, E> = Round(group: G, batch: seq<E>)

  datatype Put<G, E> = Put(group: G, entry: E)

  /** An item of the insertion-ordered dictionary of queues. */
  datatype Queue<G, E> = Queue(group: G, entries: seq<E>)

  // ---------- what the queue does, as a function of the puts ----------

  /** What is queued for a group. */
  function Left<G(==), E>(puts: seq<Put<G, E>>, g: G, batchK: nat): seq<E> {
    if puts == [] then [] else
      var n := |puts| - 1;
      var earlier := Left(puts[..n], g, batchK);
      if puts[n].group != g then earlier
      else if |earlier| + 1 >= batchK then [] else earlier + [puts[n].entry]
  }

  /** The rounds made by the puts. */
  function PutRounds<G(==), E>(puts: seq<Put<G, E>>, batchK: nat): seq<Round<G, E>> {
    if puts == [] then [] else
      var n := |puts| - 1;
      var g := puts[n].group;
      var bucket := Left(puts[..n], g, batchK) + [puts[n].entry];
      PutRounds(puts[..n], batchK) + if |bucket| >= batchK then [Round(g, bucket)] else []
  }

  /** The groups in order of their first put. */
  function Groups<G(==), E>(puts: seq<Put<G, E>>): seq<G> {
    if puts == [] then [] else
      var earlier := Groups(puts[..|puts| - 1]);
      var g := puts[|puts| - 1].group;
      if g in earlier then earlier else earlier + [g]
  }

  /** The rounds of flush_all for these groups. */
  function FinalRounds<G(==), E>(groups: seq<G>, puts: seq<Put<G, E>>, batchK: nat): seq<Round<G, E>> {
    if groups == [] then [] else
      var n := |groups| - 1;
      var left := Left(puts, groups[n], batchK);
      FinalRounds(groups[..n], puts, batchK) + if left != [] then [Round(groups[n], left)] else []
  }

  function AllRounds<G(==), E>(puts: seq<Put<G, E>>, batchK: nat): seq<Round<G, E>> {
    PutRounds(puts, batchK) + FinalRounds(Groups(puts), puts, batchK)
  }

  // ---------- the queue itself ----------

  class GatherQueue<G(==), E> {
    const batchK: nat
    var queues: seq<Queue<G, E>>
    var rounds: seq<Round<G, E>>  // the calls of gather, or of consume for the group None
    ghost var puts: seq<Put<G, E>>

    ghost predicate Valid()
      reads this
    {
      && batchK >= 1 && rounds == PutRounds(puts, batchK)
      && AreQueues(queues, puts, batchK)
    }

    constructor (batchK: int)
      ensures Valid() && puts == [] && this.batchK == if batchK >= 1 then batchK else 1
    {
      this.batchK := if batchK >= 1 then batchK else 1;
      queues, rounds, puts := [], [], [];
    }

    /** setdefault: the index of the group's queue, made empty if there is none. */
    method Find(g: G) returns (i: nat)
      requires Valid()
      modifies this`queues
      ensures FoundIn(queues, puts, g, batchK, i)
    {
      i := 0;
      while i < |queues| && queues[i].group != g
        invariant i <= |queues| && forall j :: 0 <= j < i ==> queues[j].group != g
      {
        i := i + 1;
      }
      if i == |queues| {
        queues := queues + [Queue(g, [])];
      }
    }

    method PutEntry(g: G, e: E)
      requires Valid()
      modifies this
      ensures Valid() && puts == old(puts) + [Put(g, e)]
    {
      var i := Find(g);
      PutAppend(puts, Put(g, e), batchK);
      QueuesAfterPut(queues, puts, Put(g, e), batchK, i);
      puts := puts + [Put(g, e)];
      var entries := queues[i].entries + [e];
      queues := queues[i := Queue(g, entries)];
      if |entries| >= batchK {
        rounds := rounds + [Round(g, entries)];
        queues := queues[i := Queue(g, [])];
      }
    }

    method FlushAll()
      requires Valid()
      modifies this
      ensures rounds == AllRounds(puts, batchK) && puts == old(puts)
      ensures forall i :: 0 <= i < |queues| ==> queues[i].entries == []
    {
      ghost var groups := Groups(puts);
      for i := 0 to |queues|
        invariant |queues| == |groups| && puts == old(puts)
        invariant rounds == PutRounds(puts, batchK) + FinalRounds(groups[..i], puts, batchK)
        invariant forall j :: 0 <= j < i ==> queues[j].entries == []
        invariant forall j :: i <= j < |queues| ==> queues[j] == Queue(groups[j], Left(puts, groups[j], batchK))
      {
        var q := queues[i];
        assert groups[..i + 1][..i] == groups[..i];
        if q.entries != [] {
          rounds := rounds + [Round(q.group, q.entries)];
          queues := queues[i := Queue(q.group, [])];
        }
      }
      assert groups[..|groups|] == groups;
    }
  }

  /** One queue per group seen so far, in order of the first put. */
  predicate AreQueues<G(==), E(==)>(queues: seq<Queue<G, E>>, puts: seq<Put<G, E>>, batchK: nat) {
    && |queues| == |Groups(puts)|
    && forall i :: 0 <= i < |queues| ==> queues[i] == Queue(Groups(puts)[i], Left(puts, Groups(puts)[i], batchK))
  }

  /** The queues, with an empty one added if g has none; g's is at i. */
  predicate FoundIn<G(==), E(==)>(queues: seq<Queue<G, E>>, puts: seq<Put<G, E>>, g: G, batchK: nat, i: nat) {
    && i < |queues| && queues[i].group == g
    && if g in Groups(puts) then AreQueues(queues, puts, batchK)
       else i == |queues| - 1 && queues[i] == Queue(g, []) && AreQueues(queues[..i], puts, batchK)
  }

  lemma QueuesAfterPut<G, E>(queues: seq<Queue<G, E>>, puts: seq<Put<G, E>>, p: Put<G, E>, batchK: nat, i: nat)
    requires FoundIn(queues, puts, p.group, batchK, i)
    ensures var entries := queues[i].entries + [p.entry];
            && entries == Left(puts, p.group, batchK) + [p.entry]
            && AreQueues(queues[i := Queue(p.group, if |entries| >= batchK then [] else entries)], puts + [p], batchK)
  {
    GroupsDistinct(puts);
    PutAppend(puts, p, batchK);
    NewGroupHasNothing(puts, p.group, batchK);
    if p.group !in Groups(puts) {
      assert forall j :: 0 <= j < i ==> queues[..i][j] == queues[j];
    }
  }

  lemma {:induction false} GroupsDistinct<G, E>(puts: seq<Put<G, E>>)
    ensures forall i, j :: 0 <= i < j < |Groups(puts)| ==> Groups(puts)[i] != Groups(puts)[j]
  {
    if puts != [] {
      GroupsDistinct(puts[..|puts| - 1]);
    }
  }

  lemma PutAppend<G, E>(puts: seq<Put<G, E>>, p: Put<G, E>, batchK: nat)
    ensures var bucket := Left(puts, p.group, batchK) + [p.entry];
            && PutRounds(puts + [p], batchK)
                == PutRounds(puts, batchK) + (if |bucket| >= batchK then [Round(p.group, bucket)] else [])
            && Left(puts + [p], p.group, batchK) == (if |bucket| >= batchK then [] else bucket)
    ensures forall h :: h != p.group ==> Left(puts + [p], h, batchK) == Left(puts, h, batchK)
    ensures Groups(puts + [p]) == if p.group in Groups(puts) then Groups(puts) else Groups(puts) + [p.group]
  {
    assert (puts + [p])[..|puts|] == puts;
  }

  lemma {:induction false} NewGroupHasNothing<G, E>(puts: seq<Put<G, E>>, g: G, batchK: nat)
    ensures g !in Groups(puts) ==> Left(puts, g, batchK) == []
  {
    if puts != [] {
      NewGroupHasNothing(puts[..|puts| - 1], g, batchK);
    }
  }

  // ---------- the entries of a round ----------

  lemma {:induction false} LeftWasPut<G, E>(puts: seq<Put<G, E>>, g: G, batchK: nat)
    ensures forall x :: x in Left(puts, g, batchK) ==> Put(g, x) in puts
  {
    if puts != [] {
      var n := |puts| - 1;
      LeftWasPut(puts[..n], g, batchK);
      assert puts[n] in puts && forall p :: p in puts[..n] ==> p in puts;
    }
  }

  /** A round is not empty, and its entries were put for its group. */
  predicate WasPut<G(==), E(==)>(r: Round<G, E>, puts: seq<Put<G, E>>) {
    r.batch != [] && forall x :: x in r.batch ==> Put(r.group, x) in puts
  }

  lemma {:induction false} PutRoundsWerePut<G, E>(puts: seq<Put<G, E>>, batchK: nat)
    ensures forall r :: r in PutRounds(puts, batchK) ==> WasPut(r, puts)
  {
    if puts != [] {
      var n := |puts| - 1;
      PutRoundsWerePut(puts[..n], batchK);
      LeftWasPut(puts[..n], puts[n].group, batchK);
      assert puts[n] in puts && forall p :: p in puts[..n] ==> p in puts;
    }
  }

  lemma {:induction false} FinalRoundsWerePut<G, E>(groups: seq<G>, puts: seq<Put<G, E>>, batchK: nat)
    ensures forall r :: r in FinalRounds(groups, puts, batchK) ==> WasPut(r, puts)
  {
    if groups != [] {
      var n := |groups| - 1;
      FinalRoundsWerePut(groups[..n], puts, batchK);
      LeftWasPut(puts, groups[n], batchK);
    }
  }

  lemma RoundsWerePut<G, E>(puts: seq<Put<G, E>>, batchK: nat)
    ensures forall r :: r in AllRounds(puts, batchK) ==> WasPut(r, puts)
  {
    PutRoundsWerePut(puts, batchK);
    FinalRoundsWerePut(Groups(puts), puts, batchK);
  }

  // ---------- agreement of the ranks ----------

  /** A round as the other ranks see it. */
  datatype Visible<G> = Visible(group: G, count: nat)

  function VisibleOf<G(==), E>(rounds: seq<Round<G, E>>): seq<Visible<G>> {
    if rounds == [] then []
    else VisibleOf(rounds[..|rounds| - 1]) + [Visible(rounds[|rounds| - 1].group, |rounds[|rounds| - 1].batch|)]
  }

  /** Puts for the same groups in the same order, with entries related by `rel`. */
  predicate Related<G(==), E, F>(puts: seq<Put<G, E>>, others: seq<Put<G, F>>, rel: (E, F) -> bool) {
    |puts| == |others| && forall i :: 0 <= i < |puts| ==> RelatedPut(puts[i], others[i], rel)
  }

  predicate RelatedPut<G(==), E, F>(p: Put<G, E>, q: Put<G, F>, rel: (E, F) -> bool) {
    p.group == q.group && rel(p.entry, q.entry)
  }

  predicate RelatedBatch<E, F>(b: seq<E>, c: seq<F>, rel: (E, F) -> bool) {
    |b| == |c| && forall i :: 0 <= i < |b| ==> rel(b[i], c[i])
  }

  predicate RelatedRound<G(==), E, F>(r: Round<G, E>, s: Round<G, F>, rel: (E, F) -> bool) {
    r.group == s.group && RelatedBatch(r.batch, s.batch, rel)
  }

  predicate RelatedRounds<G(==), E, F>(rounds: seq<Round<G, E>>, others: seq<Round<G, F>>, rel: (E, F) -> bool) {
    |rounds| == |others| && forall i :: 0 <= i < |rounds| ==> RelatedRound(rounds[i], others[i], rel)
  }

  lemma {:induction false} RelatedLeft<G, E, F>(puts: seq<Put<G, E>>, others: seq<Put<G, F>>, g: G, batchK: nat,
                                                rel: (E, F) -> bool)
    requires Related(puts, others, rel)
    ensures RelatedBatch(Left(puts, g, batchK), Left(others, g, batchK), rel)
  {
    if puts != [] {
      var n := |puts| - 1;
      RelatedLeft(puts[..n], others[..n], g, batchK, rel);
      assert RelatedPut(puts[n], others[n], rel);
    }
  }

  lemma {:induction false} SameGroupOrder<G, E, F>(puts: seq<Put<G, E>>, others: seq<Put<G, F>>, rel: (E, F) -> bool)
    requires Related(puts, others, rel)
    ensures Groups(puts) == Groups(others)
  {
    if puts != [] {
      var n := |puts| - 1;
      SameGroupOrder(puts[..n], others[..n], rel);
      assert RelatedPut(puts[n], others[n], rel);
    }
  }

  lemma {:induction false} RelatedPutRounds<G, E, F>(puts: seq<Put<G, E>>, others: seq<Put<G, F>>, batchK: nat,
                                                     rel: (E, F) -> bool)
    requires Related(puts, others, rel)
    ensures RelatedRounds(PutRounds(puts, batchK), PutRounds(others, batchK), rel)
  {
    if puts != [] {
      var n := |puts| - 1;
      RelatedPutRounds(puts[..n], others[..n], batchK, rel);
      RelatedLeft(puts[..n], others[..n], puts[n].group, batchK, rel);
      assert RelatedPut(puts[n], others[n], rel);
    }
  }

  lemma {:induction false} RelatedFinalRounds<G, E, F>(groups: seq<G>, puts: seq<Put<G, E>>, others: seq<Put<G, F>>,
                                                       batchK: nat, rel: (E, F) -> bool)
    requires Related(puts, others, rel)
    ensures RelatedRounds(FinalRounds(groups, puts, batchK), FinalRounds(groups, others, batchK), rel)
  {
    if groups != [] {
      var n := |groups| - 1;
      RelatedFinalRounds(groups[..n], puts, others, batchK, rel);
      RelatedLeft(puts, others, groups[n], batchK, rel);
    }
  }

  /** Two ranks that put entries for the same groups in the same order make the same
      rounds, and whatever relates the entries put relates the entries of the rounds. */
  lemma RanksRelated<G, E, F>(puts: seq<Put<G, E>>, others: seq<Put<G, F>>, batchK: nat, rel: (E, F) -> bool)
    requires Related(puts, others, rel)
    ensures RelatedRounds(AllRounds(puts, batchK), AllRounds(others, batchK), rel)
  {
    RelatedPutRounds(puts, others, batchK, rel);
    SameGroupOrder(puts, others, rel);
    RelatedFinalRounds(Groups(puts), puts, others, batchK, rel);
  }

  predicate SameGroups<G(==), E, F>(puts: seq<Put<G, E>>, others: seq<Put<G, F>>) {
    |puts| == |others| && forall i :: 0 <= i < |puts| ==> puts[i].group == others[i].group
  }

  lemma {:induction false} SameVisible<G, E, F>(rounds: seq<Round<G, E>>, others: seq<Round<G, F>>, rel: (E, F) -> bool)
    requires RelatedRounds(rounds, others, rel)
    ensures VisibleOf(rounds) == VisibleOf(others)
  {
    if rounds != [] {
      var n := |rounds| - 1;
      SameVisible(rounds[..n], others[..n], rel);
      assert RelatedRound(rounds[n], others[n], rel);
    }
  }

  /** Two ranks that put entries for the same groups in the same order, whatever
      the payloads, perform the same rounds. */
  lemma RanksAgree<G, E, F>(puts: seq<Put<G, E>>, others: seq<Put<G, F>>, batchK: nat)
    requires SameGroups(puts, others)
    ensures VisibleOf(AllRounds(puts, batchK)) == VisibleOf(AllRounds(others, batchK))
  {
    var any: (E, F) -> bool := (_, _) => true;
    assert Related(puts, others, any) by {
      forall i | 0 <= i < |puts| ensures RelatedPut(puts[i], others[i], any) {
      }
    }
    RanksRelated(puts, others, batchK, any);
    SameVisible(AllRounds(puts, batchK), AllRounds(others, batchK), any);
  }

  // ---------- every entry is flushed once ----------

  function EntriesOf<G(==), E>(puts: seq<Put<G, E>>, g: G): seq<E> {
    if puts == [] then [] else
      var n := |puts| - 1;
      EntriesOf(puts[..n], g) + if puts[n].group == g then [puts[n].entry] else []
  }

  /** The entries flushed for a group, round after round. */
  function FlushedFor<G(==), E>(rounds: seq<Round<G, E>>, g: G): seq<E> {
    if rounds == [] then [] else
      var n := |rounds| - 1;
      FlushedFor(rounds[..n], g) + if rounds[n].group == g then rounds[n].batch else []
  }

  lemma {:induction false} FlushedConcat<G, E>(a: seq<Round<G, E>>, b: seq<Round<G, E>>, g: G)
    ensures FlushedFor(a + b, g) == FlushedFor(a, g) + FlushedFor(b, g)
  {
    if b == [] {
      assert a + b == a;
    } else {
      var n := |b| - 1;
      assert (a + b)[..|a| + n] == a + b[..n];
      FlushedConcat(a, b[..n], g);
    }
  }

  lemma FlushedAppend<G, E>(rounds: seq<Round<G, E>>, r: Round<G, E>, g: G)
    ensures FlushedFor(rounds + [r], g) == FlushedFor(rounds, g) + if r.group == g then r.batch else []
  {
    assert (rounds + [r])[..|rounds|] == rounds;
  }

  lemma PutFlushes<G, E>(puts: seq<Put<G, E>>, p: Put<G, E>, g: G, batchK: nat)
    ensures FlushedFor(PutRounds(puts + [p], batchK), g) + Left(puts + [p], g, batchK)
            == FlushedFor(PutRounds(puts, batchK), g) + Left(puts, g, batchK) + if p.group == g then [p.entry] else []
  {
    var rounds, left := PutRounds(puts, batchK), Left(puts, p.group, batchK);
    PutAppend(puts, p, batchK);
    if |left + [p.entry]| >= batchK {
      FlushedAppend(rounds, Round(p.group, left + [p.entry]), g);
    } else {
      assert PutRounds(puts + [p], batchK) == rounds;
    }
    assert FlushedFor(rounds, g) + left + [p.entry] == FlushedFor(rounds, g) + (left + [p.entry]);
    assert FlushedFor(rounds, g) + Left(puts, g, batchK) + [] == FlushedFor(rounds, g) + Left(puts, g, batchK);
  }

  lemma {:induction false} PutRoundsFlush<G, E>(puts: seq<Put<G, E>>, g: G, batchK: nat)
    ensures FlushedFor(PutRounds(puts, batchK), g) + Left(puts, g, batchK) == EntriesOf(puts, g)
  {
    if puts != [] {
      var n := |puts| - 1;
      PutRoundsFlush(puts[..n], g, batchK);
      PutFlushes(puts[..n], puts[n], g, batchK);
      assert puts == puts[..n] + [puts[n]];
    }
  }

  lemma {:induction false} FinalRoundsFlush<G, E>(groups: seq<G>, puts: seq<Put<G, E>>, g: G, batchK: nat)
    requires forall i, j :: 0 <= i < j < |groups| ==> groups[i] != groups[j]
    ensures FlushedFor(FinalRounds(groups, puts, batchK), g) == if g in groups then Left(puts, g, batchK) else []
  {
    if groups != [] {
      var n := |groups| - 1;
      var left, earlier := Left(puts, groups[n], batchK), FinalRounds(groups[..n], puts, batchK);
      FinalRoundsFlush(groups[..n], puts, g, batchK);
      assert groups == groups[..n] + [groups[n]];
      if left != [] {
        FlushedAppend(earlier, Round(groups[n], left), g);
      } else {
        assert FinalRounds(groups, puts, batchK) == earlier;
      }
    }
  }

  /** Over the whole run, the entries of each group are flushed exactly once, in
      the order in which they were put. */
  lemma FlushedOnceInOrder<G, E>(puts: seq<Put<G, E>>, g: G, batchK: nat)
    ensures FlushedFor(AllRounds(puts, batchK), g) == EntriesOf(puts, g)
  {
    PutRoundsFlush(puts, g, batchK);
    GroupsDistinct(puts);
    FinalRoundsFlush(Groups(puts), puts, g, batchK);
    NewGroupHasNothing(puts, g, batchK);
    FlushedConcat(PutRounds(puts, batchK), FinalRounds(Groups(puts), puts, batchK), g);
  }

  /** A round made by a put has exactly batch_k entries; no round is empty or larger. */
  lemma {:induction false} RoundSizes<G, E>(puts: seq<Put<G, E>>, batchK: nat)
    requires batchK >= 1
    ensures forall r :: r in PutRounds(puts, batchK) ==> |r.batch| == batchK
    ensures forall g :: |Left(puts, g, batchK)| < batchK
  {
    if puts != [] {
      RoundSizes(puts[..|puts| - 1], batchK);
    }
  }
}
