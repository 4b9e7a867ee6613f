/**
 One owner's objects, delivered in any order behind those of earlier owners: how far the offload offset
 of the range gets (components/object-storage/src/object_manager.rs).
 */
module ArrivedPieces {
  import opened Prelude
  import opened ObjectChain
  import opened OffloadProgress

  // ---- The pieces of one owner --------------------------------------------------------

  /** The objects of one epoch that cut the range from `start` on into adjacent pieces. */
  ghost predicate Tiling(ts: seq<ObjectMetadata>, start: nat, epoch: nat) {
    epoch < U16_MAX && forall i :: 0 <= i < |ts| ==> TileAt(ts, start, epoch, i)
  }

  ghost predicate TileAt(ts: seq<ObjectMetadata>, start: nat, epoch: nat, i: nat)
    requires i < |ts|
  {
    && ts[i].epoch == epoch
    && ts[i].startOffset == TileEnd(ts, start, i)
    && ts[i].endOffsetDelta > 0
    && ts[i].EndOffset() <= U64_MAX
  }

  /** Where the first `n` pieces end. */
  function TileEnd(ts: seq<ObjectMetadata>, start: nat, n: nat): nat
    requires n <= |ts|
  {
    if n == 0 then start else ts[n - 1].EndOffset()
  }

  /** Inserting objects one after another, as `Metadata::add_object` does for a managed range. */
  function InsertAll(objs: Objects, ms: seq<ObjectMetadata>): Objects
    decreases |ms|
  {
    if ms == [] then objs else InsertAll(objs[ms[0].Key() := ms[0].Value()], ms[1..])
  }

  /** The number of leading pieces that have all arrived. */
  function ArrivedPrefix(ts: seq<ObjectMetadata>, arrived: set<nat>, n: nat): (r: nat)
    requires n <= |ts|
    ensures n <= r <= |ts|
    ensures forall i :: n <= i < r ==> i in arrived
    ensures r < |ts| ==> r !in arrived
    decreases |ts| - n
  {
    if n < |ts| && n in arrived then ArrivedPrefix(ts, arrived, n + 1) else n
  }

  /** The byte count of pieces 1 .. n-1. */
  function TileSize(ts: seq<ObjectMetadata>, n: nat): nat
    requires n <= |ts|
  {
    if n <= 1 then 0 else TileSize(ts, n - 1) + ts[n - 1].dataLen
  }

  /** The byte counter does not reach its maximum before the last of `n` pieces. */
  ghost predicate BelowMaximum(ts: seq<ObjectMetadata>, n: nat)
    requires n <= |ts|
  {
    forall j: nat :: 1 <= j < n ==> TileSize(ts, j) < U32_MAX
  }

  lemma {:induction false} TileStartsGrow(ts: seq<ObjectMetadata>, start: nat, epoch: nat, i: nat, j: nat)
    requires Tiling(ts, start, epoch) && i < j < |ts|
    ensures ts[i].EndOffset() <= ts[j].startOffset
    decreases j
  {
    assert TileAt(ts, start, epoch, j) && TileAt(ts, start, epoch, j - 1);
    if i < j - 1 {
      TileStartsGrow(ts, start, epoch, i, j - 1);
    }
  }

  lemma {:induction false} TileEndsGrow(ts: seq<ObjectMetadata>, start: nat, epoch: nat, i: nat, j: nat)
    requires Tiling(ts, start, epoch) && i < j <= |ts|
    ensures TileEnd(ts, start, i) < TileEnd(ts, start, j)
    decreases j
  {
    assert TileAt(ts, start, epoch, j - 1);
    if i < j - 1 {
      TileEndsGrow(ts, start, epoch, i, j - 1);
    }
  }

  function Arrivals(ts: seq<ObjectMetadata>, order: seq<nat>): seq<ObjectMetadata>
    requires forall i :: 0 <= i < |order| ==> order[i] < |ts|
  {
    seq(|order|, i requires 0 <= i < |order| => ts[order[i]])
  }

  /** Pieces of one owner delivered to an index that already holds objects: `objs` is what there was,
      `ts` the pieces, `arrived` those of them that have arrived, `more` what there is now. */
  datatype Growth = Growth(objs: Objects, start: nat, ts: seq<ObjectMetadata>, epoch: nat, arrived: set<nat>, more: Objects) {

    /** The chain of the objects there were. */
    function Old(): (c: seq<ObjectKey>)
      requires WellFormed(objs)
      ensures forall i :: 0 <= i < |c| ==> c[i] in objs
    {
      Chain(objs, start, U64_MAX, U32_MAX)
    }

    /** Where the walk over the objects there were ends. */
    function At(): nat
      requires WellFormed(objs)
    {
      WalkEnd(objs, start)
    }

    /** How many leading pieces have arrived. */
    function Prefix(): (n: nat)
      ensures n <= |ts|
    {
      ArrivedPrefix(ts, arrived, 0)
    }

    /** The objects the walk should take: those it took before, and the arrived prefix. */
    function Taken(): (ms: seq<ObjectMetadata>)
      requires WellFormed(objs)
      ensures |ms| == |Old()| + Prefix()
    {
      Metas(objs, Old()) + ts[..Prefix()]
    }

    /** `more` holds the objects there were and the pieces that have arrived. */
    ghost predicate Holds() {
      && (forall i :: i in arrived ==> i < |ts|)
      && (forall i :: i in arrived ==> ts[i].Key() in more && more[ts[i].Key()] == ts[i].Value())
      && (forall k :: k in objs ==> k in more && more[k] == objs[k])
      && (forall k :: k in more ==> k in objs || exists i :: i in arrived && ts[i].Key() == k)
    }

    /** The pieces are of a newer epoch than the objects there were, and go on where the walk over those
        ends. */
    ghost predicate Continues()
      requires WellFormed(objs)
    {
      (forall k :: k in objs ==> k.epoch < epoch) && Tiling(ts, At(), epoch)
    }

    ghost predicate Extends() { WellFormed(objs) && Continues() && Holds() }
  }

  // ---- Delivery -----------------------------------------------------------------------

  lemma {:induction false} OneArrived(arrived: set<nat>, order: seq<nat>)
    requires order != []
    ensures arrived + {order[0]} + (set i | i in order[1..]) == arrived + set i | i in order
  {
    assert order == [order[0]] + order[1..];
  }

  /** After more pieces have arrived in some order. */
  function Delivered(g: Growth, order: seq<nat>): Growth
    requires forall i :: 0 <= i < |order| ==> order[i] < |g.ts|
  {
    g.(arrived := g.arrived + (set i | i in order), more := InsertAll(g.more, Arrivals(g.ts, order)))
  }

  lemma {:induction false} DeliveryKeeps(g: Growth, order: seq<nat>)
    requires g.Extends() && forall i :: 0 <= i < |order| ==> order[i] < |g.ts|
    ensures Delivered(g, order).Extends()
    decreases |order|
  {
    hide Growth.Extends;
    if order == [] {
      assert Delivered(g, order) == g by { assert g.arrived + (set i | i in order) == g.arrived; }
    } else {
      var next := OneMore(g, order[0]);
      InsertHolds(g, order[0]);
      DeliveryKeeps(next, order[1..]);
      assert Arrivals(g.ts, order)[1..] == Arrivals(g.ts, order[1..]);
      OneArrived(g.arrived, order);
      assert Delivered(g, order) == Delivered(next, order[1..]);
    }
  }

  function OneMore(g: Growth, n: nat): Growth
    requires n < |g.ts|
  {
    g.(arrived := g.arrived + {n}, more := g.more[g.ts[n].Key() := g.ts[n].Value()])
  }

  lemma {:induction false} InsertHolds(g: Growth, n: nat)
    requires g.Extends() && n < |g.ts|
    ensures OneMore(g, n).Extends()
  {
    var next, ts, at := OneMore(g, n), g.ts, g.At();
    forall i | i in next.arrived
      ensures ts[i].Key() in next.more && next.more[ts[i].Key()] == ts[i].Value()
    {
      assert TileAt(ts, at, g.epoch, i) && TileAt(ts, at, g.epoch, n);
      if i < n {
        TileStartsGrow(ts, at, g.epoch, i, n);
      } else if n < i {
        TileStartsGrow(ts, at, g.epoch, n, i);
      }
    }
    forall k | k in next.more && k !in g.objs
      ensures exists i :: i in next.arrived && ts[i].Key() == k
    {
      if k != ts[n].Key() {
        var i :| i in g.arrived && ts[i].Key() == k;
      } else {
        assert n in next.arrived;
      }
    }
    assert TileAt(ts, at, g.epoch, n);
  }

  // ---- The walk over old objects and arrived pieces -------------------------------------

  lemma {:induction false} ExtendedWellFormed(g: Growth)
    requires g.Extends()
    ensures WellFormed(g.more) && forall k :: k in g.more ==> k in g.objs || k.epoch == g.epoch
  {
    forall k | k in g.more && k !in g.objs
      ensures k.epoch == g.epoch && g.more[k].endOffsetDelta > 0 && k.startOffset + g.more[k].endOffsetDelta <= U64_MAX
    {
      var i :| i in g.arrived && g.ts[i].Key() == k;
      assert TileAt(g.ts, g.At(), g.epoch, i);
    }
  }

  /** In the earlier epochs nothing has changed. */
  lemma {:induction false} EarlierSame(g: Growth, e: nat, off: nat)
    requires g.Extends() && e < g.epoch
    ensures LastUpTo(g.more, e, off) == LastUpTo(g.objs, e, off) && (CoveredIn(g.more, e, off) <==> CoveredIn(g.objs, e, off))
  {
    ExtendedWellFormed(g);
    assert forall k: ObjectKey :: k.epoch == e ==> (k in g.more <==> k in g.objs);
  }

  lemma {:induction false} FirstKept(g: Growth, first: ObjectKey)
    requires g.Extends() && IsFirst(g.objs, g.start, first)
    ensures IsFirst(g.more, g.start, first)
  {
    EarlierSame(g, first.epoch, g.start);
    forall e | 0 <= e < first.epoch
      ensures !CoveredIn(g.more, e, g.start)
    {
      EarlierSame(g, e, g.start);
    }
  }

  /** Nothing covered the start before: then only the first piece can. */
  lemma {:induction false} FirstPiece(g: Growth)
    requires g.Extends() && g.Old() == []
    ensures 0 in g.arrived ==> IsFirst(g.more, g.start, g.ts[0].Key())
    ensures 0 !in g.arrived ==> forall e :: 0 <= e < U16_MAX ==> !CoveredIn(g.more, e, g.start)
  {
    ChainIsChain(g.objs, g.start, U64_MAX, U32_MAX);
    ExtendedWellFormed(g);
    forall e | 0 <= e < g.epoch
      ensures !CoveredIn(g.more, e, g.start)
    {
      EarlierSame(g, e, g.start);
    }
    forall k | k in g.more && k.epoch >= g.epoch
      ensures k.epoch == g.epoch && (k == g.ts[0].Key() || g.start < k.startOffset)
    {
      var i :| i in g.arrived && g.ts[i].Key() == k;
      assert TileAt(g.ts, g.start, g.epoch, i) && TileAt(g.ts, g.start, g.epoch, 0);
      if i > 0 {
        TileStartsGrow(g.ts, g.start, g.epoch, 0, i);
      }
    }
    if 0 in g.arrived {
      assert TileAt(g.ts, g.start, g.epoch, 0);
      assert LastUpTo(g.more, g.epoch, g.start) == Some(ObjectKey(g.epoch, g.start));
    } else {
      forall e | g.epoch <= e < U16_MAX
        ensures !CoveredIn(g.more, e, g.start)
      {
        PieceMissing(g);
        assert LastUpTo(g.more, e, g.start).None?;
      }
    }
  }

  /** A piece that has not arrived is not there. */
  lemma {:induction false} PieceMissing(g: Growth)
    requires g.Extends()
    ensures forall n :: 0 <= n < |g.ts| && n !in g.arrived ==> g.ts[n].Key() !in g.more
  {
    forall n | 0 <= n < |g.ts| && n !in g.arrived
      ensures g.ts[n].Key() !in g.more
    {
      var at := g.At();
      assert TileAt(g.ts, at, g.epoch, n);
      if g.ts[n].Key() in g.more {
        var i :| i in g.arrived && g.ts[i].Key() == g.ts[n].Key();
        assert TileAt(g.ts, at, g.epoch, i);
        if i < n {
          TileStartsGrow(g.ts, at, g.epoch, i, n);
        } else {
          TileStartsGrow(g.ts, at, g.epoch, n, i);
        }
      }
    }
  }

  /** Metadata as keys. */
  function TileKeys(ms: seq<ObjectMetadata>, n: nat): seq<ObjectKey>
    requires n <= |ms|
  {
    seq(n, i requires 0 <= i < n => ms[i].Key())
  }

  ghost predicate AllIn(more: Objects, ms: seq<ObjectMetadata>) {
    forall i :: 0 <= i < |ms| ==> ms[i].Key() in more && more[ms[i].Key()] == ms[i].Value()
  }

  lemma {:induction false} TileSizeIsSize(more: Objects, ms: seq<ObjectMetadata>, n: nat)
    requires 1 <= n <= |ms| && AllIn(more, ms)
    ensures Size(more, TileKeys(ms, n)[1..]) == TileSize(ms, n)
  {
    var ks := TileKeys(ms, n)[1..];
    if n > 1 {
      TileSizeIsSize(more, ms, n - 1);
      assert ks[..|ks| - 1] == TileKeys(ms, n - 1)[1..];
    }
  }

  /** The walk should take these, and they are there. */
  ghost predicate Path(g: Growth, ms: seq<ObjectMetadata>) {
    g.Extends() && ms == g.Taken()
  }

  lemma {:induction false} AlongIn(g: Growth, ms: seq<ObjectMetadata>)
    requires Path(g, ms)
    ensures WellFormed(g.more) && AllIn(g.more, ms)
    ensures var c := g.Old(); forall i :: 0 <= i < |c| ==> ms[i].Key() == c[i]
    ensures var c := g.Old(); forall i :: |c| <= i < |ms| ==> ms[i] == g.ts[i - |c|]
  {
    ExtendedWellFormed(g);
  }

  lemma {:induction false} OldSize(objs: Objects, more: Objects, ks: seq<ObjectKey>)
    requires (forall k :: k in objs ==> k in more && more[k] == objs[k]) && forall i :: 0 <= i < |ks| ==> ks[i] in objs
    ensures Size(more, ks) == Size(objs, ks)
  {
    if ks != [] {
      OldSize(objs, more, ks[..|ks| - 1]);
    }
  }

  lemma {:induction false} OldNoneAt(g: Growth, off: nat, from: nat, to: nat)
    requires g.Extends() && NoneAt(g.objs, off, from, to)
    ensures NoneAt(g.more, off, from, Min(to, g.epoch))
  {
    ExtendedWellFormed(g);
  }

  /** Two neighbours that meet. */
  lemma {:induction false} AlongMeets(g: Growth, ms: seq<ObjectMetadata>, i: nat)
    requires Path(g, ms) && 1 <= i < |ms| && TileSize(ms, i) < U32_MAX
    ensures Meets(g.more, ms[i - 1].Key(), ms[i].Key()) && ms[i - 1].EndOffset() < U64_MAX
  {
    if i < |g.Old()| {
      OldMeets(g, ms, i);
    } else if i == |g.Old()| {
      JoinMeets(g, ms);
    } else {
      PieceMeets(g, ms, i);
    }
  }

  lemma {:induction false} JoinMeets(g: Growth, ms: seq<ObjectMetadata>)
    requires Path(g, ms) && 1 <= |g.Old()| < |ms| && TileSize(ms, |g.Old()|) < U32_MAX
    ensures var i := |g.Old()|; Meets(g.more, ms[i - 1].Key(), ms[i].Key()) && ms[i - 1].EndOffset() < U64_MAX
  {
    hide Size, Chain, Growth.Holds, Growth.Taken, WellFormed;
    var i, c, at := |g.Old()|, g.Old(), g.At();
    AlongIn(g, ms);
    assert TileAt(g.ts, at, g.epoch, 0);
    JoinStops(g, ms);
    OldNoneAt(g, at, c[i - 1].epoch, U16_MAX);
    AlongEnd(g, ms, i);
  }

  lemma {:induction false} PieceMeets(g: Growth, ms: seq<ObjectMetadata>, i: nat)
    requires Path(g, ms) && |g.Old()| < i < |ms|
    ensures Meets(g.more, ms[i - 1].Key(), ms[i].Key()) && ms[i - 1].EndOffset() < U64_MAX
  {
    hide Size, Chain, Growth.Holds, Growth.Taken, WellFormed;
    var n := i - |g.Old()|;
    AlongIn(g, ms);
    assert TileAt(g.ts, g.At(), g.epoch, n) && TileAt(g.ts, g.At(), g.epoch, n - 1);
  }

  lemma {:induction false} OldMeets(g: Growth, ms: seq<ObjectMetadata>, i: nat)
    requires Path(g, ms) && 1 <= i < |g.Old()|
    ensures Meets(g.more, ms[i - 1].Key(), ms[i].Key()) && ms[i - 1].EndOffset() < U64_MAX
  {
    hide Size, Chain;
    var c := g.Old();
    ChainIsChain(g.objs, g.start, U64_MAX, U32_MAX);
    AlongIn(g, ms);
    assert Links(g.objs, U64_MAX, U32_MAX, c, i);
    OldNoneAt(g, EndOf(g.objs, c[i - 1]), c[i - 1].epoch, c[i].epoch);
  }

  /** Where the pieces begin, the old walk found nothing to go on with. */
  lemma {:induction false} JoinStops(g: Growth, ms: seq<ObjectMetadata>)
    requires Path(g, ms)
    requires var c := g.Old(); 1 <= |c| < |ms| && TileSize(ms, |c|) < U32_MAX
    ensures var c := g.Old(); NoneAt(g.objs, g.At(), c[|c| - 1].epoch, U16_MAX)
  {
    var c := g.Old();
    ChainIsChain(g.objs, g.start, U64_MAX, U32_MAX);
    assert TileAt(g.ts, g.At(), g.epoch, 0);
    OldTailSize(g, ms, |c|);
    assert c[1..|c|] == c[1..];
  }

  lemma {:induction false} OldTailSize(g: Growth, ms: seq<ObjectMetadata>, i: nat)
    requires Path(g, ms) && 1 <= i <= |g.Old()|
    ensures Size(g.objs, g.Old()[1..i]) == TileSize(ms, i)
  {
    hide Chain, Growth.Continues;
    var c := g.Old();
    AlongIn(g, ms);
    TileSizeIsSize(g.more, ms, i);
    assert TileKeys(ms, i)[1..] == c[1..i];
    OldSize(g.objs, g.more, c[1..i]);
  }

  lemma {:induction false} AlongPartial(g: Growth, ms: seq<ObjectMetadata>, m: nat)
    requires Path(g, ms) && 1 <= m <= |ms| && BelowMaximum(ms, m)
    ensures WellFormed(g.more) && IsPartial(g.more, g.start, U64_MAX, U32_MAX, TileKeys(ms, m))
  {
    hide IsFirst, NoneAt, Growth.Taken, Growth.Holds, Growth.Continues, WellFormed, Growth.Prefix;
    var ks, c := TileKeys(ms, m), g.Old();
    AlongIn(g, ms);
    AlongFirst(g, ms);
    forall i | 1 <= i < m
      ensures Links(g.more, U64_MAX, U32_MAX, ks, i)
    {
      AlongMeets(g, ms, i);
      TileSizeIsSize(g.more, ms, i);
      assert ks[1..i] == TileKeys(ms, i)[1..];
    }
  }

  lemma {:induction false} AlongFirst(g: Growth, ms: seq<ObjectMetadata>)
    requires Path(g, ms) && ms != []
    ensures IsFirst(g.more, g.start, ms[0].Key())
  {
    AlongIn(g, ms);
    ChainIsChain(g.objs, g.start, U64_MAX, U32_MAX);
    if g.Old() == [] {
      FirstPiece(g);
    } else {
      FirstKept(g, g.Old()[0]);
    }
  }

  /** No delivered piece starts where the arrived prefix ends. */
  lemma {:induction false} NoneAfterPrefix(g: Growth, k: ObjectKey)
    requires g.Extends() && k in g.more && k.epoch >= g.epoch
    ensures k.startOffset != TileEnd(g.ts, g.At(), g.Prefix())
  {
    var m, at := g.Prefix(), g.At();
    var i :| i in g.arrived && g.ts[i].Key() == k;
    assert TileAt(g.ts, at, g.epoch, i);
    if i < m {
      TileEndsGrow(g.ts, at, g.epoch, i, m);
    } else {
      TileEndsGrow(g.ts, at, g.epoch, m, i);
    }
  }

  lemma {:induction false} AlongStops(g: Growth, ms: seq<ObjectMetadata>, m: nat)
    requires Path(g, ms) && 1 <= m <= |ms|
    requires m == |ms| || TileSize(ms, m) >= U32_MAX
    ensures AllIn(g.more, ms) && Stops(g.more, U64_MAX, U32_MAX, TileKeys(ms, m))
  {
    hide Growth.Holds, Growth.Continues, Chain, NoneAt, WellFormed, Growth.Taken, Growth.Prefix;
    AlongIn(g, ms);
    AlongEnd(g, ms, |ms|);
    TileSizeIsSize(g.more, ms, m);
    if TileSize(ms, m) < U32_MAX {
      if |g.Old()| < |ms| {
        LastPieceStops(g, ms);
      } else if g.At() < U64_MAX {
        OldEndStops(g, ms);
      }
    }
  }

  /** No piece has arrived behind the objects there were. */
  lemma {:induction false} OldEndStops(g: Growth, ms: seq<ObjectMetadata>)
    requires Path(g, ms) && |ms| == |g.Old()| >= 1 && TileSize(ms, |ms|) < U32_MAX && g.At() < U64_MAX
    ensures var last := ms[|ms| - 1]; NoneAt(g.more, last.EndOffset(), last.epoch, U16_MAX)
  {
    hide Growth.Holds, Growth.Continues, Chain, Size;
    var c := g.Old();
    ChainIsChain(g.objs, g.start, U64_MAX, U32_MAX);
    OldTailSize(g, ms, |c|);
    assert c[1..|c|] == c[1..];
    OldNoneAt(g, g.At(), c[|c| - 1].epoch, U16_MAX);
    NoneBehind(g);
    AlongIn(g, ms);
  }

  lemma {:induction false} NoneBehind(g: Growth)
    requires g.Extends()
    ensures NoneAt(g.more, TileEnd(g.ts, g.At(), g.Prefix()), g.epoch, U16_MAX)
  {
    forall k | k in g.more && g.epoch <= k.epoch
      ensures k.startOffset != TileEnd(g.ts, g.At(), g.Prefix())
    {
      NoneAfterPrefix(g, k);
    }
  }

  lemma {:induction false} LastPieceStops(g: Growth, ms: seq<ObjectMetadata>)
    requires Path(g, ms) && |g.Old()| < |ms|
    ensures var last := ms[|ms| - 1]; last.epoch == g.epoch && NoneAt(g.more, last.EndOffset(), g.epoch, U16_MAX)
  {
    AlongIn(g, ms);
    NoneBehind(g);
    assert TileAt(g.ts, g.At(), g.epoch, g.Prefix() - 1);
  }

  lemma {:induction false} OffloadOfChain(objs: Objects, start: nat, c: seq<ObjectKey>)
    requires WellFormed(objs) && IsPartial(objs, start, U64_MAX, U32_MAX, c) && Stops(objs, U64_MAX, U32_MAX, c)
    ensures Chain(objs, start, U64_MAX, U32_MAX) == c && WalkEnd(objs, start) == EndOf(objs, c[|c| - 1])
    ensures WalkOverflows(objs, start) <==> Size(objs, c[1..]) > U32_MAX
  {
    ChainCharacterised(objs, start, U64_MAX, U32_MAX, c);
  }

  /** The walk takes the first `m` of them: all, unless the 32-bit byte counter reaches its maximum
      earlier. */
  lemma {:induction false} WalkAlong(g: Growth, ms: seq<ObjectMetadata>, m: nat)
    requires Path(g, ms) && m <= |ms| && BelowMaximum(ms, m)
    requires m == |ms| || (1 <= m && TileSize(ms, m) >= U32_MAX)
    ensures WellFormed(g.more) && Chain(g.more, g.start, U64_MAX, U32_MAX) == TileKeys(ms, m)
    ensures WalkEnd(g.more, g.start) == TileEnd(ms, g.start, m) && (WalkOverflows(g.more, g.start) <==> TileSize(ms, m) > U32_MAX)
  {
    hide Links, Size, IsFirst, IsPartial, Growth.Taken, Growth.Holds, Growth.Continues, WellFormed, Growth.Prefix;
    AlongIn(g, ms);
    if m == 0 {
      NothingAlong(g, ms);
    } else {
      AlongPartial(g, ms, m);
      AlongStops(g, ms, m);
      OffloadOfChain(g.more, g.start, TileKeys(ms, m));
      TileSizeIsSize(g.more, ms, m);
    }
  }

  lemma {:induction false} NothingAlong(g: Growth, ms: seq<ObjectMetadata>)
    requires Path(g, ms) && ms == []
    ensures WellFormed(g.more) && Chain(g.more, g.start, U64_MAX, U32_MAX) == []
  {
    AlongIn(g, ms);
    FirstPiece(g);
    assert 0 !in g.arrived;
    ChainCharacterised(g.more, g.start, U64_MAX, U32_MAX, []);
  }

  lemma {:induction false} FirstMaximum(ts: seq<ObjectMetadata>, n: nat) returns (m: nat)
    requires n <= |ts| && !BelowMaximum(ts, n)
    ensures 1 <= m < n && TileSize(ts, m) >= U32_MAX && BelowMaximum(ts, m)
  {
    if BelowMaximum(ts, n - 1) {
      m := n - 1;
    } else {
      m := FirstMaximum(ts, n - 1);
    }
  }

  /** The old walk did not stop in the middle of its own chain. */
  lemma {:induction false} NotBeforeJoin(g: Growth, ms: seq<ObjectMetadata>, m: nat)
    requires Path(g, ms) && 1 <= m < |ms| && TileSize(ms, m) >= U32_MAX
    ensures |g.Old()| <= m
  {
    var c := g.Old();
    if m < |c| {
      ChainIsChain(g.objs, g.start, U64_MAX, U32_MAX);
      assert Links(g.objs, U64_MAX, U32_MAX, c, m);
      OldTailSize(g, ms, m);
    }
  }

  lemma {:induction false} AlongEnd(g: Growth, ms: seq<ObjectMetadata>, m: nat)
    requires Path(g, ms) && |g.Old()| <= m <= |ms|
    ensures TileEnd(ms, g.start, m) == TileEnd(g.ts, g.At(), m - |g.Old()|)
  {
    AlongIn(g, ms);
  }

  /** With pieces of a new epoch delivered in any order behind the objects there were: the offload offset
      is reported, and is the end of the longest arrived prefix, if and only if the bytes the walk counts
      fit 32 bits and do not reach the 32-bit maximum before its last object. Then the walk takes exactly
      the objects it took before and the arrived prefix. */
  lemma {:induction false} OffloadGoesOn(g: Growth)
    requires g.Extends()
    ensures WellFormed(g.more)
    ensures var ms := g.Taken();
            && (OffloadOffset(g.more, g.start) == Ok(TileEnd(g.ts, g.At(), g.Prefix())) <==> BelowMaximum(ms, |ms|) && TileSize(ms, |ms|) <= U32_MAX)
            && (BelowMaximum(ms, |ms|) ==> Chain(g.more, g.start, U64_MAX, U32_MAX) == TileKeys(ms, |ms|))
  {
    hide Links, Size, Chain, IsFirst, Growth.Taken, Growth.Holds, Growth.Continues, WellFormed, Growth.Prefix;
    var ms := g.Taken();
    AlongIn(g, ms);
    AlongEnd(g, ms, |ms|);
    if BelowMaximum(ms, |ms|) {
      WalkAlong(g, ms, |ms|);
    } else {
      var m := FirstMaximum(ms, |ms|);
      WalkAlong(g, ms, m);
      NotBeforeJoin(g, ms, m);
      AlongEnd(g, ms, m);
      PiecesTiled(g);
      TileEndsGrow(g.ts, g.At(), g.epoch, m - |g.Old()|, g.Prefix());
    }
  }

  lemma {:induction false} PiecesTiled(g: Growth)
    requires g.Extends()
    ensures Tiling(g.ts, g.At(), g.epoch)
  {
  }

  /** A fresh range, no piece of which has arrived. */
  function FreshGrowth(ts: seq<ObjectMetadata>, start: nat, epoch: nat): Growth { Growth(map[], start, ts, epoch, {}, map[]) }

  lemma {:induction false} NothingBefore(ts: seq<ObjectMetadata>, start: nat, epoch: nat)
    requires Tiling(ts, start, epoch)
    ensures var g := FreshGrowth(ts, start, epoch); g.Extends() && g.Old() == [] && g.At() == start
  {
    ChainCharacterised(map[], start, U64_MAX, U32_MAX, []);
  }

  /** For a fresh single-epoch range whose pieces arrived in any order: the offload offset is
      reported, and is the end of the longest arrived prefix, if and only if the bytes of the prefix
      behind its first piece fit 32 bits and no shorter prefix has reached the 32-bit maximum. */
  lemma {:induction false} OffloadIsArrivedPrefix(ts: seq<ObjectMetadata>, start: nat, epoch: nat, order: seq<nat>)
    requires Tiling(ts, start, epoch)
    requires forall i :: 0 <= i < |order| ==> order[i] < |ts|
    ensures var objs := InsertAll(map[], Arrivals(ts, order));
            var n := ArrivedPrefix(ts, set i | i in order, 0);
            && WellFormed(objs)
            && (OffloadOffset(objs, start) == Ok(TileEnd(ts, start, n)) <==> BelowMaximum(ts, n) && TileSize(ts, n) <= U32_MAX)
  {
    hide Chain, Growth.Holds, Growth.Continues, WellFormed, BelowMaximum, InsertAll, Arrivals, ArrivedPrefix, TileSize, Growth.Taken;
    var next := Delivered(FreshGrowth(ts, start, epoch), order);
    FreshDelivered(ts, start, epoch, order, next);
    OffloadGoesOn(next);
    PrefixSize(ts, next.Prefix(), next.Prefix());
    PrefixBelow(ts, next.Prefix());
  }

  lemma {:induction false} FreshDelivered(ts: seq<ObjectMetadata>, start: nat, epoch: nat, order: seq<nat>, next: Growth)
    requires Tiling(ts, start, epoch) && forall i :: 0 <= i < |order| ==> order[i] < |ts|
    requires next == Delivered(FreshGrowth(ts, start, epoch), order)
    ensures next.Extends() && next.At() == start && next.Taken() == ts[..next.Prefix()]
    ensures next.arrived == (set i | i in order) && next.more == InsertAll(map[], Arrivals(ts, order)) && next.start == start && next.ts == ts
  {
    hide Chain, Growth.Holds, Growth.Continues, WellFormed, InsertAll, Arrivals, ArrivedPrefix;
    NothingBefore(ts, start, epoch);
    DeliveryKeeps(FreshGrowth(ts, start, epoch), order);
  }

  lemma {:induction false} PrefixBelow(ts: seq<ObjectMetadata>, n: nat)
    requires n <= |ts|
    ensures BelowMaximum(ts[..n], n) <==> BelowMaximum(ts, n)
  {
    forall j: nat | j <= n
      ensures TileSize(ts[..n], j) == TileSize(ts, j)
    {
      PrefixSize(ts, n, j);
    }
  }

  lemma {:induction false} PrefixSize(ts: seq<ObjectMetadata>, n: nat, j: nat)
    requires j <= n <= |ts|
    ensures TileSize(ts[..n], j) == TileSize(ts, j)
  {
    if j > 1 {
      PrefixSize(ts, n, j - 1);
    }
  }

  // ---- Two inputs for which the offset is not the arrived prefix --------------------

  /** Adjacent pieces of one offset each, with the given data lengths. */
  function Pieces(lens: seq<nat>): (ts: seq<ObjectMetadata>)
    ensures |ts| == |lens|
  {
    seq(|lens|, i requires 0 <= i < |lens| => ObjectMetadata(1, 0, 0, i, 1, lens[i], []))
  }

  lemma {:induction false} PiecesTile(lens: seq<nat>)
    requires |lens| <= U64_MAX
    ensures Tiling(Pieces(lens), 0, 0)
    ensures forall n :: 0 <= n <= |lens| ==> TileEnd(Pieces(lens), 0, n) == n
  {
    var ts := Pieces(lens);
    forall i | 0 <= i < |ts|
      ensures TileAt(ts, 0, 0, i)
    {
    }
  }

  /** All pieces have arrived, and the walk stops at the first prefix whose count reaches the maximum. */
  lemma {:induction false} StopsAt(lens: seq<nat>, ts: seq<ObjectMetadata>, order: seq<nat>, m: nat)
    requires ts == Pieces(lens) && |lens| <= U64_MAX && 1 <= m <= |lens|
    requires (forall i :: 0 <= i < |order| ==> order[i] < |ts|) && forall i :: 0 <= i < |ts| ==> i in order
    requires BelowMaximum(ts, m) && (m == |ts| || TileSize(ts, m) >= U32_MAX)
    ensures var objs := InsertAll(map[], Arrivals(ts, order));
            && WellFormed(objs)
            && OffloadOffset(objs, 0) == if TileSize(ts, m) > U32_MAX then Err(Overflow) else Ok(m)
  {
    var g := FreshGrowth(ts, 0, 0);
    PiecesTile(lens);
    NothingBefore(ts, 0, 0);
    DeliveryKeeps(g, order);
    var next := Delivered(g, order);
    assert next.Prefix() == |ts|;
    assert next.Taken() == ts;
    WalkAlong(next, ts, m);
  }

  /** Three pieces, all arrived; the count reads its maximum after two, so the third is not seen. */
  lemma {:induction false} MaximumHidesPiece(ts: seq<ObjectMetadata>, objs: Objects)
    requires ts == Pieces([1, U32_MAX, 1]) && objs == InsertAll(map[], Arrivals(ts, [0, 1, 2]))
    ensures Tiling(ts, 0, 0) && TileEnd(ts, 0, 3) == 3
    ensures WellFormed(objs) && OffloadOffset(objs, 0) == Ok(2)
  {
    PiecesTile([1, U32_MAX, 1]);
    assert TileSize(ts, 1) == 0 && TileSize(ts, 2) == U32_MAX;
    StopsAt([1, U32_MAX, 1], ts, [0, 1, 2], 2);
  }

  /** Four pieces, all arrived, with more than 4 GiB behind the first: the walk aborts. */
  lemma {:induction false} LargeRangeAborts(ts: seq<ObjectMetadata>, objs: Objects)
    requires ts == Pieces([1, I32_LIMIT, I32_LIMIT, 1]) && objs == InsertAll(map[], Arrivals(ts, [0, 1, 2, 3]))
    ensures Tiling(ts, 0, 0)
    ensures WellFormed(objs) && OffloadOffset(objs, 0) == Err(Overflow)
  {
    PiecesTile([1, I32_LIMIT, I32_LIMIT, 1]);
    assert TileSize(ts, 1) == 0 && TileSize(ts, 2) == I32_LIMIT && TileSize(ts, 3) == 2 * I32_LIMIT;
    StopsAt([1, I32_LIMIT, I32_LIMIT, 1], ts, [0, 1, 2, 3], 3);
  }
}
