/** The one-flush-lookahead bucket pipeline of the delta engine
    (verl/checkpoint_engine/delta_checkpoint_engine.py, _FlushBucket).

    `_assemble` is a pure function of the pieces, so a flush is represented by the
    pieces it was assembled from; `published` records the calls of `_publish`. */
module FlushBuckets {
  import opened Sequences
  import opened Wrappers

  datatype Sized<P> = Sized(piece: P, nbytes: nat)

  datatype Published<P> = Published(flush: seq<Sized<P>>, isLast: bool)

  function Bytes<P>(pieces: seq<Sized<P>>): nat {
    if pieces == [] then 0 else Bytes(pieces[..|pieces| - 1]) + pieces[|pieces| - 1].nbytes
  }

  function Pieces<P>(sized: seq<Sized<P>>): seq<P> {
    if sized == [] then [] else Pieces(sized[..|sized| - 1]) + [sized[|sized| - 1].piece]
  }

  lemma {:induction false} PiecesConcat<P>(a: seq<Sized<P>>, b: seq<Sized<P>>)
    ensures Pieces(a + b) == Pieces(a) + Pieces(b) && Bytes(a + b) == Bytes(a) + Bytes(b)
  {
    if b == [] {
      assert a + b == a;
    } else {
      var n := |b| - 1;
      assert (a + b)[..|a| + n] == a + b[..n];
      PiecesConcat(a, b[..n]);
    }
  }

  /** The full buckets cut from a stream of pieces, and the pieces left over. */
  datatype Cutting<P> = Cutting(full: seq<seq<Sized<P>>>, rest: seq<Sized<P>>)

  function Cut<P>(all: seq<Sized<P>>, cap: int): Cutting<P> {
    if all == [] then Cutting([], []) else
      var c := Cut(all[..|all| - 1], cap);
      var bucket := c.rest + [all[|all| - 1]];
      if Bytes(bucket) >= cap then Cutting(c.full + [bucket], []) else Cutting(c.full, bucket)
  }

  /** All flushes of a stream that is sealed at its end. */
  function Flushes<P>(all: seq<Sized<P>>, cap: int): seq<seq<Sized<P>>> {
    var c := Cut(all, cap);
    if c.rest == [] then c.full else c.full + [c.rest]
  }

  function Unflagged<P>(flushes: seq<seq<Sized<P>>>): seq<Published<P>> {
    if flushes == [] then []
    else Unflagged(flushes[..|flushes| - 1]) + [Published(flushes[|flushes| - 1], false)]
  }

  /** The flushes in order, with the flag on the last one only, or on none. */
  function Stream<P>(flushes: seq<seq<Sized<P>>>, isLast: bool): seq<Published<P>> {
    if flushes == [] then []
    else Unflagged(flushes[..|flushes| - 1]) + [Published(flushes[|flushes| - 1], isLast)]
  }

  lemma UnflaggedAppend<P>(flushes: seq<seq<Sized<P>>>, b: seq<Sized<P>>)
    ensures Unflagged(flushes + [b]) == Unflagged(flushes) + [Published(b, false)]
    ensures forall isLast :: Stream(flushes + [b], isLast) == Unflagged(flushes) + [Published(b, isLast)]
  {
    assert (flushes + [b])[..|flushes|] == flushes;
  }

  lemma CutAppend<P>(all: seq<Sized<P>>, p: Sized<P>, cap: int)
    ensures var c := Cut(all, cap);
            Cut(all + [p], cap) == if Bytes(c.rest + [p]) >= cap then Cutting(c.full + [c.rest + [p]], [])
                                   else Cutting(c.full, c.rest + [p])
  {
    assert (all + [p])[..|all|] == all;
  }

  lemma BytesAppend<P>(pieces: seq<Sized<P>>, p: Sized<P>)
    ensures Bytes(pieces + [p]) == Bytes(pieces) + p.nbytes
  {
    assert (pieces + [p])[..|pieces|] == pieces;
  }

  class FlushBucket<P> {
    const cap: int
    var pieces: seq<Sized<P>>
    var nbytes: nat
    var pending: Option<seq<Sized<P>>>
    var published: seq<Published<P>>
    ghost var added: seq<Sized<P>>  // everything added so far

    /** While pieces are being added: the pending flush is the last full one, and
        all the earlier ones were published without the flag. */
    ghost predicate Valid()
      reads this
    {
      var c := Cut(added, cap);
      && pieces == c.rest && nbytes == Bytes(pieces)
      && (pending.Some? <==> c.full != [])
      && Unflagged(c.full) == published + PendingAs(false)
    }

    ghost function PendingAs(isLast: bool): seq<Published<P>>
      reads this
    {
      if pending.Some? then [Published(pending.value, isLast)] else []
    }

    constructor (cap: int)
      ensures Valid() && added == [] && this.cap == cap
    {
      this.cap := cap;
      pieces, nbytes, pending, published, added := [], 0, None, [], [];
    }

    method Add(piece: P, size: nat)
      requires Valid()
      modifies this
      ensures Valid() && added == old(added) + [Sized(piece, size)]
    {
      CutAppend(added, Sized(piece, size), cap);
      BytesAppend(pieces, Sized(piece, size));
      UnflaggedAppend(Cut(added, cap).full, pieces + [Sized(piece, size)]);
      added := added + [Sized(piece, size)];
      pieces := pieces + [Sized(piece, size)];
      nbytes := nbytes + size;
      if nbytes >= cap {
        Seal();
      }
    }

    method Seal()
      modifies this
      ensures added == old(added)
      ensures old(pieces) == [] ==> unchanged(this)
      ensures old(pieces) != [] ==>
                && pending == Some(old(pieces)) && pieces == [] && nbytes == 0
                && published == old(published) + old(PendingAs(false))
    {
      if pieces == [] {
        return;
      }
      Emit(false);
      pending := Some(pieces);
      pieces, nbytes := [], 0;
    }

    method Emit(isLast: bool)
      modifies this
      ensures added == old(added) && pieces == old(pieces) && nbytes == old(nbytes) && pending == None
      ensures published == old(published) + old(PendingAs(isLast))
    {
      if pending.Some? {
        published := published + [Published(pending.value, isLast)];
        pending := None;
      }
    }

    /** The callers' finale: seal, then emit the pending flush with the given flag;
        false when there is none. */
    method Finish(isLast: bool) returns (any: bool)
      requires Valid()
      modifies this
      ensures any <==> old(added) != []
      ensures published == Stream(Flushes(old(added), cap), isLast)
    {
      ghost var c := Cut(added, cap);
      CutNonEmpty(added, cap);
      UnflaggedAppend(c.full, c.rest);
      StreamFromUnflagged(c.full, published, pending, isLast);
      Seal();
      any := pending.Some?;
      if any {
        Emit(isLast);
      }
    }
  }

  /** What has been published when all pieces are added: every full flush but the last. */
  function Emitted<P>(all: seq<Sized<P>>, cap: int): seq<Published<P>> {
    var full := Cut(all, cap).full;
    if full == [] then [] else Unflagged(full[..|full| - 1])
  }

  lemma PublishedIsEmitted<P>(bkt: FlushBucket<P>)
    requires bkt.Valid()
    ensures bkt.published == Emitted(bkt.added, bkt.cap)
  {
    var full := Cut(bkt.added, bkt.cap).full;
    StreamFromUnflagged(full, bkt.published, bkt.pending, false);
    if full != [] {
      assert Stream(full, false)[..|bkt.published|] == bkt.published;
    }
  }

  lemma StreamFromUnflagged<P>(full: seq<seq<Sized<P>>>, published: seq<Published<P>>, pending: Option<seq<Sized<P>>>,
                               isLast: bool)
    requires pending.Some? <==> full != []
    requires Unflagged(full) == published + if pending.Some? then [Published(pending.value, false)] else []
    ensures Stream(full, isLast) == published + if pending.Some? then [Published(pending.value, isLast)] else []
  {
    if full != [] {
      var u := Unflagged(full[..|full| - 1]);
      assert u == (u + [Published(full[|full| - 1], false)])[..|u|];
      assert published == Unflagged(full)[..|published|];
    }
  }

  /** Message i of a stream is flush i; only the last may carry the flag. */
  lemma StreamIs<P>(flushes: seq<seq<Sized<P>>>, isLast: bool)
    ensures |Stream(flushes, isLast)| == |flushes|
    ensures forall i :: 0 <= i < |flushes| ==>
              Stream(flushes, isLast)[i] == Published(flushes[i], isLast && i == |flushes| - 1)
  {
    if flushes != [] {
      UnflaggedIs(flushes[..|flushes| - 1]);
    }
  }

  lemma {:induction false} UnflaggedIs<P>(flushes: seq<seq<Sized<P>>>)
    ensures |Unflagged(flushes)| == |flushes|
    ensures forall i :: 0 <= i < |flushes| ==> Unflagged(flushes)[i] == Published(flushes[i], false)
  {
    if flushes != [] {
      UnflaggedIs(flushes[..|flushes| - 1]);
    }
  }

  /** The pieces in all published flushes. */
  function AllPieces<P>(published: seq<Published<P>>): seq<P> {
    if published == [] then [] else
      AllPieces(published[..|published| - 1]) + Pieces(published[|published| - 1].flush)
  }

  lemma {:induction false} UnflaggedPieces<P>(flushes: seq<seq<Sized<P>>>)
    ensures AllPieces(Unflagged(flushes)) == Pieces(Flatten(flushes))
  {
    if flushes != [] {
      var n := |flushes| - 1;
      assert flushes == flushes[..n] + [flushes[n]];
      UnflaggedPieces(flushes[..n]);
      FlattenAppend(flushes[..n], flushes[n]);
      PiecesConcat(Flatten(flushes[..n]), flushes[n]);
    }
  }

  /** The published flushes hold all pieces of the stream, in order. */
  lemma StreamPieces<P>(all: seq<Sized<P>>, cap: int, isLast: bool)
    ensures AllPieces(Stream(Flushes(all, cap), isLast)) == Pieces(all)
  {
    var flushes := Flushes(all, cap);
    FlushesTile(all, cap);
    if flushes != [] {
      var n := |flushes| - 1;
      assert flushes == flushes[..n] + [flushes[n]];
      UnflaggedPieces(flushes[..n]);
      FlattenAppend(flushes[..n], flushes[n]);
      PiecesConcat(Flatten(flushes[..n]), flushes[n]);
    }
  }

  // ---------- what the flushes are ----------

  lemma {:induction false} CutNonEmpty<P>(all: seq<Sized<P>>, cap: int)
    ensures var c := Cut(all, cap); all == [] <==> c.full == [] && c.rest == []
  {
    if all != [] {
      CutNonEmpty(all[..|all| - 1], cap);
    }
  }

  /** Each piece is in exactly one flush, in order. */
  lemma {:induction false} CutTiles<P>(all: seq<Sized<P>>, cap: int)
    ensures Flatten(Cut(all, cap).full) + Cut(all, cap).rest == all
  {
    if all != [] {
      var n := |all| - 1;
      CutTiles(all[..n], cap);
      CutTilesStep(Cut(all[..n], cap), all[..n], all[n]);
      assert all == all[..n] + [all[n]];
    }
  }

  lemma CutTilesStep<P>(c: Cutting<P>, before: seq<Sized<P>>, p: Sized<P>)
    requires Flatten(c.full) + c.rest == before
    ensures Flatten(c.full) + (c.rest + [p]) == before + [p]
    ensures Flatten(c.full + [c.rest + [p]]) == before + [p]
  {
    FlattenAppend(c.full, c.rest + [p]);
    assert Flatten(c.full) + (c.rest + [p]) == Flatten(c.full) + c.rest + [p];
  }

  lemma FlushesTile<P>(all: seq<Sized<P>>, cap: int)
    ensures Flatten(Flushes(all, cap)) == all
  {
    var c := Cut(all, cap);
    CutTiles(all, cap);
    FlattenAppend(c.full, c.rest);
    assert c.rest == [] ==> Flatten(c.full) + c.rest == Flatten(c.full);
  }

  /** The bucket reached the cap with its last piece and not before. */
  predicate JustReaches<P>(bucket: seq<Sized<P>>, cap: int) {
    bucket != [] && Bytes(bucket) >= cap && (|bucket| > 1 ==> Bytes(bucket[..|bucket| - 1]) < cap)
  }

  lemma {:induction false} CutReachesCap<P>(all: seq<Sized<P>>, cap: int)
    ensures forall i :: 0 <= i < |Cut(all, cap).full| ==> JustReaches(Cut(all, cap).full[i], cap)
    ensures Cut(all, cap).rest != [] ==> Bytes(Cut(all, cap).rest) < cap
  {
    if all != [] {
      var n := |all| - 1;
      CutReachesCap(all[..n], cap);
      var bucket := Cut(all[..n], cap).rest + [all[n]];
      assert bucket[..|bucket| - 1] == Cut(all[..n], cap).rest;
    }
  }

  /** No flush is empty; every flush but the last reaches the cap, exactly with
      its last piece. */
  lemma FlushesReachCap<P>(all: seq<Sized<P>>, cap: int)
    ensures forall i :: 0 <= i < |Flushes(all, cap)| ==> Flushes(all, cap)[i] != []
    ensures forall i :: 0 <= i < |Flushes(all, cap)| - 1 ==> JustReaches(Flushes(all, cap)[i], cap)
  {
    CutReachesCap(all, cap);
  }
}
