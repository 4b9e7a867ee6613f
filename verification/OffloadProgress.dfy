/**
 The offload offset of a managed range: how far the committed objects reach without a gap.
 */
module OffloadProgress {
  import opened Prelude
  import opened ObjectChain

  /** Where the unlimited walk ends. */
  function WalkEnd(objs: Objects, start: nat): nat
    requires WellFormed(objs)
  {
    ChainEnd(objs, Chain(objs, start, U64_MAX, U32_MAX), start)
  }

  /** The byte counter of the unlimited walk overflows. */
  predicate WalkOverflows(objs: Objects, start: nat)
    requires WellFormed(objs)
  {
    TailSize(objs, Chain(objs, start, U64_MAX, U32_MAX)) > U32_MAX
  }

  /** `ManagedObjects::offload_offset`. */
  function OffloadOffset(objs: Objects, start: nat): Result<nat, Abort>
    requires WellFormed(objs)
  {
    if WalkOverflows(objs, start) then Err(Overflow) else Ok(WalkEnd(objs, start))
  }

  // ---- Everything below the offload offset lies in an object ------------------------

  lemma {:induction false} CoveredAlong(objs: Objects, start: nat, limit: nat, hint: nat,
                                        c: seq<ObjectKey>, i: nat, off: nat)
    requires WellFormed(objs) && IsPartial(objs, start, limit, hint, c)
    requires i < |c| && start <= off < EndOf(objs, c[i])
    ensures exists k :: Covers(objs, k, off)
  {
    if off >= c[i].startOffset {
      assert Covers(objs, c[i], off);
    } else {
      if i > 0 {
        assert Links(objs, limit, hint, c, i);
        CoveredAlong(objs, start, limit, hint, c, i - 1, off);
      }
    }
  }

  lemma {:induction false} OffloadedIsCovered(objs: Objects, start: nat, off: nat)
    requires WellFormed(objs) && start <= off < WalkEnd(objs, start)
    ensures exists k :: Covers(objs, k, off)
  {
    ChainIsChain(objs, start, U64_MAX, U32_MAX);
    var c := Chain(objs, start, U64_MAX, U32_MAX);
    CoveredAlong(objs, start, U64_MAX, U32_MAX, c, |c| - 1, off);
  }

  // ---- The offset is not lowered by objects of the newest epoch ---------------------

  lemma {:induction false} EndsGrow(objs: Objects, start: nat, limit: nat, hint: nat, c: seq<ObjectKey>, i: nat, j: nat)
    requires WellFormed(objs) && IsPartial(objs, start, limit, hint, c)
    requires i <= j < |c|
    ensures start < EndOf(objs, c[i]) <= EndOf(objs, c[j])
    ensures i < j ==> EndOf(objs, c[i]) < EndOf(objs, c[j])
    decreases j
  {
    if j > 0 {
      assert Links(objs, limit, hint, c, j);
      if i < j {
        EndsGrow(objs, start, limit, hint, c, i, j - 1);
      } else {
        EndsGrow(objs, start, limit, hint, c, i - 1, j - 1);
      }
    }
  }

  lemma {:induction false} OffloadAtLeastStart(objs: Objects, start: nat)
    requires WellFormed(objs)
    ensures start <= WalkEnd(objs, start)
  {
    ChainIsChain(objs, start, U64_MAX, U32_MAX);
    var c := Chain(objs, start, U64_MAX, U32_MAX);
    if c != [] {
      EndsGrow(objs, start, U64_MAX, U32_MAX, c, 0, |c| - 1);
    }
  }

  lemma {:induction false} SizeUnchanged(objs: Objects, k: ObjectKey, v: Object, ks: seq<ObjectKey>)
    requires k !in objs && forall i :: 0 <= i < |ks| ==> ks[i] in objs
    ensures Size(objs[k := v], ks) == Size(objs, ks)
  {
    if ks != [] {
      SizeUnchanged(objs, k, v, ks[..|ks| - 1]);
    }
  }

  /** Whatever partial chain there is, the full chain reaches at least as far. */
  lemma {:induction false} ChainReachesPartial(objs: Objects, start: nat, limit: nat, hint: nat, c: seq<ObjectKey>)
    requires WellFormed(objs) && IsPartial(objs, start, limit, hint, c)
    ensures EndOf(objs, c[|c| - 1]) <= ChainEnd(objs, Chain(objs, start, limit, hint), start)
  {
    var d := Chain(objs, start, limit, hint);
    ChainIsChain(objs, start, limit, hint);
    assert CoveredIn(objs, c[0].epoch, start);
    if |d| < |c| {
      PrefixGoesOn(objs, start, limit, hint, c, |d|);
      PartialsAgree(objs, start, limit, hint, d, c, |d| - 1);
    } else {
      PartialsAgree(objs, start, limit, hint, c, d, |c| - 1);
      EndsGrow(objs, start, limit, hint, d, |c| - 1, |d| - 1);
    }
  }

  // ---- When a new object lowers the offset ------------------------------------------

  /** The walk takes the new object `k` instead of object `i` of the chain `c`: it covers the start in
      an earlier epoch, or it starts where object `i` starts, in an earlier epoch the walk visits. */
  ghost predicate DivertsAt(c: seq<ObjectKey>, start: nat, k: ObjectKey, v: Object, i: nat) {
    && i < |c|
    && k.epoch < c[i].epoch
    && if i == 0 then k.startOffset <= start < k.startOffset + v.endOffsetDelta
       else k.startOffset == c[i].startOffset && c[i - 1].epoch <= k.epoch
  }

  /** The existing objects the walk goes on with after the new one. */
  function DivertedTail(objs: Objects, c: seq<ObjectKey>, k: ObjectKey, v: Object, i: nat): (ks: seq<ObjectKey>)
    requires WellFormed(objs) && i <= |c| && forall j :: 0 <= j < |c| ==> c[j] in objs
    ensures forall j :: 0 <= j < |ks| ==> ks[j] in objs
  {
    Extend(objs, k.epoch, EpochMax(objs), k.startOffset + v.endOffsetDelta,
           if i == 0 then 0 else Size(objs, c[1..i]) + v.dataLen, U64_MAX, U32_MAX)
  }

  function DivertedEnd(objs: Objects, c: seq<ObjectKey>, k: ObjectKey, v: Object, i: nat): nat
    requires WellFormed(objs) && i <= |c| && forall j :: 0 <= j < |c| ==> c[j] in objs
  {
    ChainEnd(objs, DivertedTail(objs, c, k, v, i), k.startOffset + v.endOffsetDelta)
  }

  /** The index `more` is `objs` with one new object that overlaps none of its epoch. */
  ghost predicate Adds(objs: Objects, k: ObjectKey, v: Object, more: Objects) {
    && WellFormed(objs) && k !in objs && more == objs[k := v]
    && WellFormed(more) && DisjointPerEpoch(more)
  }

  lemma {:induction false} FirstStays(objs: Objects, start: nat, first: ObjectKey, k: ObjectKey, v: Object, more: Objects)
    requires Adds(objs, k, v, more) && IsFirst(objs, start, first)
    requires !(k.epoch < first.epoch && k.startOffset <= start < k.startOffset + v.endOffsetDelta)
    ensures IsFirst(more, start, first)
  {
    forall e | 0 <= e < first.epoch
      ensures !CoveredIn(more, e, start)
    {
      assert !CoveredIn(objs, e, start);
      if LastUpTo(more, e, start) != Some(k) {
        assert LastUpTo(more, e, start) == LastUpTo(objs, e, start);
      }
    }
    assert LastUpTo(more, first.epoch, start) == Some(first);
  }

  /** Up to where the new object diverts it, the walk goes as before. */
  lemma {:induction false} StaysPartial(objs: Objects, start: nat, c: seq<ObjectKey>, n: nat, k: ObjectKey, v: Object, more: Objects)
    requires Adds(objs, k, v, more) && IsPartial(objs, start, U64_MAX, U32_MAX, c) && 1 <= n <= |c|
    requires forall i :: 0 <= i < n ==> !DivertsAt(c, start, k, v, i)
    ensures IsPartial(more, start, U64_MAX, U32_MAX, c[..n])
  {
    assert !DivertsAt(c, start, k, v, 0);
    FirstStays(objs, start, c[0], k, v, more);
    var d := c[..n];
    forall i | 1 <= i < n
      ensures Links(more, U64_MAX, U32_MAX, d, i)
    {
      assert Links(objs, U64_MAX, U32_MAX, c, i) && !DivertsAt(c, start, k, v, i);
      assert d[1..i] == c[1..i];
      SizeUnchanged(objs, k, v, c[1..i]);
    }
  }

  /** The walk is diverted at most once. */
  lemma {:induction false} DivertsOnce(objs: Objects, start: nat, c: seq<ObjectKey>, k: ObjectKey, v: Object, i: nat, j: nat)
    requires WellFormed(objs) && IsPartial(objs, start, U64_MAX, U32_MAX, c)
    requires DivertsAt(c, start, k, v, i) && j < i
    ensures !DivertsAt(c, start, k, v, j)
  {
    assert Links(objs, U64_MAX, U32_MAX, c, i);
    EndsGrow(objs, start, U64_MAX, U32_MAX, c, i - 1, i - 1);
    if j > 0 {
      assert Links(objs, U64_MAX, U32_MAX, c, j);
      EndsGrow(objs, start, U64_MAX, U32_MAX, c, j - 1, i - 1);
    }
  }

  lemma {:induction false} DivertedFirst(objs: Objects, start: nat, first: ObjectKey, k: ObjectKey, v: Object, more: Objects)
    requires Adds(objs, k, v, more) && IsFirst(objs, start, first)
    requires k.epoch < first.epoch && k.startOffset <= start < k.startOffset + v.endOffsetDelta
    ensures IsFirst(more, start, k)
  {
    forall e | 0 <= e < k.epoch
      ensures !CoveredIn(more, e, start)
    {
      assert !CoveredIn(objs, e, start);
      assert LastUpTo(more, e, start) == LastUpTo(objs, e, start);
    }
    assert LastUpTo(more, k.epoch, start) == Some(k);
  }

  lemma {:induction false} DivertedMeets(objs: Objects, start: nat, c: seq<ObjectKey>, k: ObjectKey, v: Object, i: nat, more: Objects)
    requires Adds(objs, k, v, more) && IsPartial(objs, start, U64_MAX, U32_MAX, c) && DivertsAt(c, start, k, v, i) && 1 <= i
    ensures Meets(more, c[i - 1], k)
    ensures EndOf(more, c[i - 1]) < U64_MAX && Size(objs, c[1..i]) < U32_MAX
  {
    assert Links(objs, U64_MAX, U32_MAX, c, i);
  }

  lemma {:induction false} DivertedPartial(objs: Objects, start: nat, c: seq<ObjectKey>, k: ObjectKey, v: Object, i: nat, more: Objects)
    requires Adds(objs, k, v, more) && IsPartial(objs, start, U64_MAX, U32_MAX, c) && DivertsAt(c, start, k, v, i)
    ensures IsPartial(more, start, U64_MAX, U32_MAX, c[..i] + [k])
    ensures Size(more, (c[..i] + [k])[1..]) == if i == 0 then 0 else Size(objs, c[1..i]) + v.dataLen
  {
    if i == 0 {
      DivertedFirst(objs, start, c[0], k, v, more);
      assert c[..i] + [k] == [k];
    } else {
      hide IsFirst, NoneAt, DisjointPerEpoch;
      forall j | 0 <= j < i
        ensures !DivertsAt(c, start, k, v, j)
      {
        DivertsOnce(objs, start, c, k, v, i, j);
      }
      StaysPartial(objs, start, c, i, k, v, more);
      DivertedMeets(objs, start, c, k, v, i, more);
      assert c[..i][1..] == c[1..i];
      SizeUnchanged(objs, k, v, c[1..i]);
      PartialSnoc(more, start, U64_MAX, U32_MAX, c[..i], k);
    }
  }

  /** Behind its start the new object is not met again. */
  lemma {:induction false} ExtendSame(objs: Objects, k: ObjectKey, v: Object, more: Objects, epoch: nat, epochMax: nat, cur: nat, size: nat)
    requires Adds(objs, k, v, more) && k.startOffset < cur
    ensures Extend(more, epoch, epochMax, cur, size, U64_MAX, U32_MAX) == Extend(objs, epoch, epochMax, cur, size, U64_MAX, U32_MAX)
    decreases epochMax + 1 - epoch, U64_MAX - cur
  {
    if epoch <= epochMax && cur < U64_MAX && size < U32_MAX {
      var key := ObjectKey(epoch, cur);
      if key in objs {
        ExtendSame(objs, k, v, more, epoch, epochMax, EndOf(objs, key), size + objs[key].dataLen);
      } else {
        ExtendSame(objs, k, v, more, epoch + 1, epochMax, cur, size);
      }
    }
  }

  lemma {:induction false} EpochsBelow(objs: Objects, x: ObjectKey, k: ObjectKey, v: Object, more: Objects)
    requires Adds(objs, k, v, more) && x in objs && k.epoch <= x.epoch
    ensures forall y :: y in more ==> y.epoch <= EpochMax(objs)
  {
  }

  /** A diverted walk: the old chain up to the diversion, the new object, and what follows it. */
  lemma {:induction false} DivertedChain(objs: Objects, start: nat, c: seq<ObjectKey>, k: ObjectKey, v: Object, i: nat, more: Objects)
    requires Adds(objs, k, v, more) && IsPartial(objs, start, U64_MAX, U32_MAX, c) && DivertsAt(c, start, k, v, i)
    ensures Chain(more, start, U64_MAX, U32_MAX) == c[..i] + [k] + DivertedTail(objs, c, k, v, i)
    ensures WalkEnd(more, start) == DivertedEnd(objs, c, k, v, i)
  {
    DivertedIsChain(objs, start, c, k, v, i, more);
    var tail := DivertedTail(objs, c, k, v, i);
    ChainCharacterised(more, start, U64_MAX, U32_MAX, c[..i] + [k] + tail);
  }

  lemma {:induction false} DivertedTailSame(objs: Objects, start: nat, c: seq<ObjectKey>, k: ObjectKey, v: Object, i: nat, more: Objects,
                                            size: nat)
    requires Adds(objs, k, v, more) && IsPartial(objs, start, U64_MAX, U32_MAX, c) && i < |c|
    requires size == if i == 0 then 0 else Size(objs, c[1..i]) + v.dataLen
    ensures DivertedTail(objs, c, k, v, i) == Extend(more, k.epoch, EpochMax(objs), EndOf(more, k), size, U64_MAX, U32_MAX)
  {
    hide Extend, Size, IsPartial, DisjointPerEpoch;
    ExtendSame(objs, k, v, more, k.epoch, EpochMax(objs), EndOf(more, k), size);
  }

  lemma {:induction false} DivertedIsChain(objs: Objects, start: nat, c: seq<ObjectKey>, k: ObjectKey, v: Object, i: nat, more: Objects)
    requires Adds(objs, k, v, more) && IsPartial(objs, start, U64_MAX, U32_MAX, c) && DivertsAt(c, start, k, v, i)
    ensures IsChain(more, start, U64_MAX, U32_MAX, c[..i] + [k] + DivertedTail(objs, c, k, v, i))
  {
    hide IsFirst, Links, WellFormed, DisjointPerEpoch, Extend, Size, Chain, IsChain, DivertedTail;
    EpochsBelow(objs, c[i], k, v, more);
    DivertedPartial(objs, start, c, k, v, i, more);
    var ks := c[..i] + [k];
    var size := Size(more, ks[1..]);
    DivertedTailSame(objs, start, c, k, v, i, more, size);
    GoesOn(more, start, ks, k, EpochMax(objs), DivertedTail(objs, c, k, v, i));
  }

  lemma {:induction false} GoesOn(objs: Objects, start: nat, ks: seq<ObjectKey>, last: ObjectKey, epochMax: nat, tail: seq<ObjectKey>)
    requires WellFormed(objs) && forall k :: k in objs ==> k.epoch <= epochMax
    requires IsPartial(objs, start, U64_MAX, U32_MAX, ks) && ks[|ks| - 1] == last
    requires tail == Extend(objs, last.epoch, epochMax, EndOf(objs, last), Size(objs, ks[1..]), U64_MAX, U32_MAX)
    ensures IsChain(objs, start, U64_MAX, U32_MAX, ks + tail)
  {
    ExtendCompletes(objs, start, U64_MAX, U32_MAX, ks, last.epoch, epochMax, ks + tail);
  }

  /** A new object that diverts the walk nowhere leaves it at least as far. */
  lemma {:induction false} StraightNotLowered(objs: Objects, start: nat, k: ObjectKey, v: Object, more: Objects)
    requires Adds(objs, k, v, more)
    requires forall i :: !DivertsAt(Chain(objs, start, U64_MAX, U32_MAX), start, k, v, i)
    ensures WalkEnd(objs, start) <= WalkEnd(more, start)
  {
    var c := Chain(objs, start, U64_MAX, U32_MAX);
    if c == [] {
      OffloadAtLeastStart(more, start);
    } else {
      ChainIsChain(objs, start, U64_MAX, U32_MAX);
      StaysPartial(objs, start, c, |c|, k, v, more);
      assert c[..|c|] == c;
      ChainReachesPartial(more, start, U64_MAX, U32_MAX, c);
    }
  }

  /** Objects of one epoch never overlap. Then a new object lowers the end of the walk if and only if
      it diverts the walk and the existing objects after it end below the old end. */
  lemma {:induction false} OffloadLoweredIff(objs: Objects, start: nat, k: ObjectKey, v: Object, more: Objects)
    requires Adds(objs, k, v, more)
    ensures var c := Chain(objs, start, U64_MAX, U32_MAX);
            WalkEnd(more, start) < WalkEnd(objs, start)
            <==> exists i :: DivertsAt(c, start, k, v, i) && DivertedEnd(objs, c, k, v, i) < WalkEnd(objs, start)
  {
    var c := Chain(objs, start, U64_MAX, U32_MAX);
    ChainIsChain(objs, start, U64_MAX, U32_MAX);
    if i :| DivertsAt(c, start, k, v, i) {
      DivertedChain(objs, start, c, k, v, i, more);
      forall j | DivertsAt(c, start, k, v, j)
        ensures j == i
      {
        if j < i {
          DivertsOnce(objs, start, c, k, v, i, j);
        } else if i < j {
          DivertsOnce(objs, start, c, k, v, j, i);
        }
      }
    } else {
      StraightNotLowered(objs, start, k, v, more);
    }
  }

  /** In particular, an object whose epoch is not below any epoch on the chain lowers nothing. */
  lemma {:induction false} OffloadNeverLowered(objs: Objects, start: nat, k: ObjectKey, v: Object, more: Objects)
    requires Adds(objs, k, v, more)
    requires forall x :: x in Chain(objs, start, U64_MAX, U32_MAX) ==> x.epoch <= k.epoch
    ensures WalkEnd(objs, start) <= WalkEnd(more, start)
  {
    StraightNotLowered(objs, start, k, v, more);
  }

  /** Without the epoch condition the claim fails: an object of an older epoch can shorten the chain. */
  lemma {:induction false} OlderEpochCanLower(objs: Objects, more: Objects)
    requires objs == map[ObjectKey(1, 0) := Object(100, 1, [])]
    requires more == objs[ObjectKey(0, 0) := Object(10, 1, [])]
    ensures Adds(objs, ObjectKey(0, 0), Object(10, 1, []), more)
    ensures OffloadOffset(objs, 0) == Ok(100) && OffloadOffset(more, 0) == Ok(10)
  {
    OlderAlone(objs);
    OlderAndNewer(more);
  }

  lemma {:induction false} OlderAlone(objs: Objects)
    requires objs == map[ObjectKey(1, 0) := Object(100, 1, [])]
    ensures WellFormed(objs) && OffloadOffset(objs, 0) == Ok(100)
  {
    var newer := ObjectKey(1, 0);
    assert LastUpTo(objs, 1, 0) == Some(newer) && LastUpTo(objs, 0, 0) == None;
    assert IsPartial(objs, 0, U64_MAX, U32_MAX, [newer]);
    ChainCharacterised(objs, 0, U64_MAX, U32_MAX, [newer]);
  }

  lemma {:induction false} OlderAndNewer(more: Objects)
    requires more == map[ObjectKey(1, 0) := Object(100, 1, []), ObjectKey(0, 0) := Object(10, 1, [])]
    ensures WellFormed(more) && DisjointPerEpoch(more) && OffloadOffset(more, 0) == Ok(10)
  {
    var older := ObjectKey(0, 0);
    assert LastUpTo(more, 0, 0) == Some(older);
    assert IsPartial(more, 0, U64_MAX, U32_MAX, [older]);
    ChainCharacterised(more, 0, U64_MAX, U32_MAX, [older]);
  }
}
