/**
 The object index of one range and the walk that rebuilds a contiguous chain of objects
 across offload epochs (components/object-storage/src/object_manager.rs).

 Byte sizes are accumulated in an unsigned 32-bit counter. A walk goes on only while the counter is
 below the hint, so just the last addition can overflow, and the walk then aborts.
 */
module ObjectChain {
  import opened Prelude

  datatype ObjectKey = ObjectKey(epoch: nat, startOffset: nat)

  datatype Object = Object(endOffsetDelta: nat, dataLen: nat, sparseIndex: bytes)

  type Objects = map<ObjectKey, Object>

  datatype ObjectMetadata = ObjectMetadata(
    streamId: nat, rangeIndex: nat, epoch: nat, startOffset: nat,
    endOffsetDelta: nat, dataLen: nat, sparseIndex: bytes)
  {
    function EndOffset(): nat { startOffset + endOffsetDelta }

    function Key(): ObjectKey { ObjectKey(epoch, startOffset) }

    function Value(): Object { Object(endOffsetDelta, dataLen, sparseIndex) }
  }

  /** What the walk needs in order to stop: a 16-bit epoch counter that can step past the
      last epoch, and objects that are not empty and end within 64 bits. */
  predicate WellFormed(objs: Objects) {
    forall k :: k in objs ==>
                  && k.epoch < U16_MAX
                  && objs[k].endOffsetDelta > 0
                  && k.startOffset + objs[k].endOffsetDelta <= U64_MAX
  }

  function EndOf(objs: Objects, k: ObjectKey): nat
    requires k in objs
  {
    k.startOffset + objs[k].endOffsetDelta
  }

  predicate Covers(objs: Objects, k: ObjectKey, off: nat) {
    k in objs && k.startOffset <= off < EndOf(objs, k)
  }

  function Meta(objs: Objects, k: ObjectKey): ObjectMetadata
    requires k in objs
  {
    ObjectMetadata(0, 0, k.epoch, k.startOffset, objs[k].endOffsetDelta, objs[k].dataLen, objs[k].sparseIndex)
  }

  function Metas(objs: Objects, ks: seq<ObjectKey>): (ms: seq<ObjectMetadata>)
    requires forall i :: 0 <= i < |ks| ==> ks[i] in objs
  {
    seq(|ks|, i requires 0 <= i < |ks| => Meta(objs, ks[i]))
  }

  // ---- Lookups in the ordered map -------------------------------------------------

  function EpochMin(objs: Objects): (e: nat)
    ensures forall k :: k in objs ==> e <= k.epoch
  {
    var epochs := set k | k in objs :: k.epoch;
    assert forall k :: k in objs ==> k.epoch in epochs;
    if epochs == {} then U16_MAX else MinOf(epochs)
  }

  function EpochMax(objs: Objects): (e: nat)
    ensures forall k :: k in objs ==> k.epoch <= e
  {
    var epochs := set k | k in objs :: k.epoch;
    assert forall k :: k in objs ==> k.epoch in epochs;
    if epochs == {} then 0 else MaxOf(epochs)
  }

  /** The object of one epoch with the greatest start not above `off`. */
  function LastUpTo(objs: Objects, epoch: nat, off: nat): (r: Option<ObjectKey>)
    ensures r.Some? ==>
              && r.value in objs && r.value.epoch == epoch && r.value.startOffset <= off
              && forall k :: k in objs && k.epoch == epoch && k.startOffset <= off ==>
                               k.startOffset <= r.value.startOffset
    ensures r.None? ==> forall k :: k in objs && k.epoch == epoch ==> off < k.startOffset
  {
    var starts := set k | k in objs && k.epoch == epoch && k.startOffset <= off :: k.startOffset;
    assert forall k :: k in objs && k.epoch == epoch && k.startOffset <= off ==> k.startOffset in starts;
    if starts == {} then None else Some(ObjectKey(epoch, MaxOf(starts)))
  }

  predicate CoveredIn(objs: Objects, epoch: nat, off: nat) {
    var last := LastUpTo(objs, epoch, off);
    last.Some? && Covers(objs, last.value, off)
  }

  // ---- The walk -------------------------------------------------------------------

  function FirstCover(objs: Objects, off: nat, epoch: nat, epochMax: nat): (r: Option<ObjectKey>)
    ensures r.Some? ==> Covers(objs, r.value, off) && epoch <= r.value.epoch <= epochMax
    decreases epochMax + 1 - epoch
  {
    if epoch > epochMax then None
    else if CoveredIn(objs, epoch, off) then LastUpTo(objs, epoch, off)
    else FirstCover(objs, off, epoch + 1, epochMax)
  }

  function Extend(objs: Objects, epoch: nat, epochMax: nat, cur: nat, size: nat, limit: nat, hint: nat)
    : (ks: seq<ObjectKey>)
    requires WellFormed(objs)
    ensures forall i :: 0 <= i < |ks| ==> ks[i] in objs
    decreases epochMax + 1 - epoch, U64_MAX - cur
  {
    if epoch <= epochMax && cur < limit && size < hint then
      var k := ObjectKey(epoch, cur);
      if k in objs then
        [k] + Extend(objs, epoch, epochMax, EndOf(objs, k), size + objs[k].dataLen, limit, hint)
      else
        Extend(objs, epoch + 1, epochMax, cur, size, limit, hint)
    else
      []
  }

  function Chain(objs: Objects, start: nat, limit: nat, hint: nat): (ks: seq<ObjectKey>)
    requires WellFormed(objs)
    ensures forall i :: 0 <= i < |ks| ==> ks[i] in objs
  {
    var first := FirstCover(objs, start, EpochMin(objs), EpochMax(objs));
    match first
    case None => []
    case Some(k) => [k] + Extend(objs, k.epoch, EpochMax(objs), EndOf(objs, k), 0, limit, hint)
  }

  /** The sum of the data lengths of `ks`. */
  function Size(objs: Objects, ks: seq<ObjectKey>): (n: nat)
    requires forall i :: 0 <= i < |ks| ==> ks[i] in objs
  {
    if ks == [] then 0
    else Size(objs, ks[..|ks| - 1]) + objs[ks[|ks| - 1]].dataLen
  }

  function ChainEnd(objs: Objects, ks: seq<ObjectKey>, start: nat): nat
    requires forall i :: 0 <= i < |ks| ==> ks[i] in objs
  {
    if ks == [] then start else EndOf(objs, ks[|ks| - 1])
  }

  function TailSize(objs: Objects, ks: seq<ObjectKey>): nat
    requires forall i :: 0 <= i < |ks| ==> ks[i] in objs
  {
    if ks == [] then 0 else Size(objs, ks[1..])
  }

  // ---- What the walk returns, stated without the walk -----------------------------

  /** `k` covers `off`, and no object of an earlier epoch does. */
  ghost predicate IsFirst(objs: Objects, off: nat, k: ObjectKey) {
    && CoveredIn(objs, k.epoch, off)
    && LastUpTo(objs, k.epoch, off) == Some(k)
    && forall e :: 0 <= e < k.epoch ==> !CoveredIn(objs, e, off)
  }

  /** No object of an epoch in [from, to) starts at `off`. */
  ghost predicate NoneAt(objs: Objects, off: nat, from: nat, to: nat) {
    forall k :: k in objs && from <= k.epoch < to ==> k.startOffset != off
  }

  ghost predicate Meets(objs: Objects, prev: ObjectKey, next: ObjectKey) {
    && prev in objs && next in objs
    && next.startOffset == EndOf(objs, prev)
    && prev.epoch <= next.epoch
    && NoneAt(objs, EndOf(objs, prev), prev.epoch, next.epoch)
  }

  /** Object `i` meets its predecessor, at which point neither limit had been reached. */
  ghost predicate Links(objs: Objects, limit: nat, hint: nat, ks: seq<ObjectKey>, i: nat)
    requires 1 <= i < |ks| && forall j :: 0 <= j < |ks| ==> ks[j] in objs
  {
    && Meets(objs, ks[i - 1], ks[i])
    && EndOf(objs, ks[i - 1]) < limit
    && Size(objs, ks[1..i]) < hint
  }

  /** `ks` starts with the object covering `start`, neighbours meet with the smallest possible
      epoch step, and neither limit was reached before the last object. */
  ghost predicate IsPartial(objs: Objects, start: nat, limit: nat, hint: nat, ks: seq<ObjectKey>) {
    && ks != []
    && (forall i :: 0 <= i < |ks| ==> ks[i] in objs)
    && IsFirst(objs, start, ks[0])
    && forall i :: 1 <= i < |ks| ==> Links(objs, limit, hint, ks, i)
  }

  ghost predicate Stops(objs: Objects, limit: nat, hint: nat, ks: seq<ObjectKey>)
    requires ks != [] && forall i :: 0 <= i < |ks| ==> ks[i] in objs
  {
    var last := ks[|ks| - 1];
    || EndOf(objs, last) >= limit
    || Size(objs, ks[1..]) >= hint
    || NoneAt(objs, EndOf(objs, last), last.epoch, U16_MAX)
  }

  ghost predicate IsChain(objs: Objects, start: nat, limit: nat, hint: nat, ks: seq<ObjectKey>) {
    if ks == [] then forall e :: 0 <= e < U16_MAX ==> !CoveredIn(objs, e, start)
    else IsPartial(objs, start, limit, hint, ks) && Stops(objs, limit, hint, ks)
  }

  lemma {:induction false} FirstCoverIsFirst(objs: Objects, off: nat, epoch: nat, epochMax: nat)
    requires WellFormed(objs)
    requires forall e :: 0 <= e < epoch ==> !CoveredIn(objs, e, off)
    requires forall k :: k in objs ==> k.epoch <= epochMax
    ensures var r := FirstCover(objs, off, epoch, epochMax);
            if r.Some? then IsFirst(objs, off, r.value)
            else forall e :: 0 <= e < U16_MAX ==> !CoveredIn(objs, e, off)
    decreases epochMax + 1 - epoch
  {
    if epoch <= epochMax && !CoveredIn(objs, epoch, off) {
      FirstCoverIsFirst(objs, off, epoch + 1, epochMax);
    }
  }

  lemma {:induction false} SizeSnoc(objs: Objects, ks: seq<ObjectKey>, k: ObjectKey)
    requires k in objs && forall i :: 0 <= i < |ks| ==> ks[i] in objs
    ensures Size(objs, ks + [k]) == Size(objs, ks) + objs[k].dataLen
  {
    assert (ks + [k])[..|ks|] == ks;
  }

  /** One step of the second loop keeps the partial chain. */
  lemma {:induction false} PartialSnoc(objs: Objects, start: nat, limit: nat, hint: nat, ks: seq<ObjectKey>, k: ObjectKey)
    requires IsPartial(objs, start, limit, hint, ks)
    requires Meets(objs, ks[|ks| - 1], k)
    requires EndOf(objs, ks[|ks| - 1]) < limit && Size(objs, ks[1..]) < hint
    ensures IsPartial(objs, start, limit, hint, ks + [k])
    ensures Size(objs, (ks + [k])[1..]) == Size(objs, ks[1..]) + objs[k].dataLen
  {
    var more := ks + [k];
    assert more[1..] == ks[1..] + [k];
    SizeSnoc(objs, ks[1..], k);
    forall i | 1 <= i < |more|
      ensures Links(objs, limit, hint, more, i)
    {
      assert more[1..i] == ks[1..i];
      assert i < |ks| ==> Links(objs, limit, hint, ks, i);
    }
  }

  lemma {:induction false} ExtendCompletes(objs: Objects, start: nat, limit: nat, hint: nat,
                                           ks: seq<ObjectKey>, epoch: nat, epochMax: nat, all: seq<ObjectKey>)
    requires WellFormed(objs) && forall k :: k in objs ==> k.epoch <= epochMax
    requires IsPartial(objs, start, limit, hint, ks)
    requires ks[|ks| - 1].epoch <= epoch && NoneAt(objs, EndOf(objs, ks[|ks| - 1]), ks[|ks| - 1].epoch, epoch)
    requires all == ks + Extend(objs, epoch, epochMax, EndOf(objs, ks[|ks| - 1]), Size(objs, ks[1..]), limit, hint)
    ensures IsChain(objs, start, limit, hint, all)
    decreases epochMax + 1 - epoch, U64_MAX - EndOf(objs, ks[|ks| - 1])
  {
    var cur := EndOf(objs, ks[|ks| - 1]);
    var size := Size(objs, ks[1..]);
    if epoch <= epochMax && cur < limit && size < hint {
      var k := ObjectKey(epoch, cur);
      if k in objs {
        PartialSnoc(objs, start, limit, hint, ks, k);
        ExtendCompletes(objs, start, limit, hint, ks + [k], epoch, epochMax, all);
      } else {
        ExtendCompletes(objs, start, limit, hint, ks, epoch + 1, epochMax, all);
      }
    } else {
      assert all == ks;
    }
  }

  lemma {:induction false} ChainIsChain(objs: Objects, start: nat, limit: nat, hint: nat)
    requires WellFormed(objs)
    ensures IsChain(objs, start, limit, hint, Chain(objs, start, limit, hint))
  {
    FirstCoverIsFirst(objs, start, EpochMin(objs), EpochMax(objs));
    var first := FirstCover(objs, start, EpochMin(objs), EpochMax(objs));
    if first.Some? {
      ExtendCompletes(objs, start, limit, hint, [first.value], first.value.epoch, EpochMax(objs),
                      Chain(objs, start, limit, hint));
    }
  }

  lemma {:induction false} PartialsAgree(objs: Objects, start: nat, limit: nat, hint: nat,
                                         c: seq<ObjectKey>, d: seq<ObjectKey>, i: nat)
    requires IsPartial(objs, start, limit, hint, c) && IsPartial(objs, start, limit, hint, d)
    requires i < |c| && i < |d|
    ensures c[..i + 1] == d[..i + 1] && (i + 1 == |c| ==> c == d[..|c|])
  {
    if i > 0 {
      PartialsAgree(objs, start, limit, hint, c, d, i - 1);
      assert c[i - 1] == d[i - 1];
      assert Links(objs, limit, hint, c, i) && Links(objs, limit, hint, d, i);
      assert c[..i + 1] == c[..i] + [c[i]];
      assert d[..i + 1] == d[..i] + [d[i]];
    }
  }

  /** A chain is not a proper prefix of another: the longer one shows how to go on. */
  lemma {:induction false} PrefixGoesOn(objs: Objects, start: nat, limit: nat, hint: nat, d: seq<ObjectKey>, n: nat)
    requires WellFormed(objs) && IsPartial(objs, start, limit, hint, d) && 1 <= n < |d|
    ensures !Stops(objs, limit, hint, d[..n])
  {
    assert Links(objs, limit, hint, d, n);
    assert d[..n][1..] == d[1..n];
  }

  lemma {:induction false} NotShorter(objs: Objects, start: nat, limit: nat, hint: nat, c: seq<ObjectKey>, d: seq<ObjectKey>)
    requires WellFormed(objs)
    requires IsChain(objs, start, limit, hint, c) && IsChain(objs, start, limit, hint, d)
    ensures |d| <= |c|
  {
    if 1 <= |c| < |d| {
      PrefixGoesOn(objs, start, limit, hint, d, |c|);
      PartialsAgree(objs, start, limit, hint, c, d, |c| - 1);
    }
  }

  /** The walk returns the one chain its documentation describes, and nothing else. */
  lemma {:induction false} ChainCharacterised(objs: Objects, start: nat, limit: nat, hint: nat, c: seq<ObjectKey>)
    requires WellFormed(objs)
    ensures IsChain(objs, start, limit, hint, c) <==> c == Chain(objs, start, limit, hint)
  {
    ChainIsChain(objs, start, limit, hint);
    var d := Chain(objs, start, limit, hint);
    if IsChain(objs, start, limit, hint, c) {
      NotShorter(objs, start, limit, hint, c, d);
      NotShorter(objs, start, limit, hint, d, c);
      if c != [] {
        PartialsAgree(objs, start, limit, hint, c, d, |c| - 1);
        assert c == c[..|c|] && d == d[..|d|];
      }
    }
  }

  /** Objects of one epoch do not overlap. */
  ghost predicate DisjointPerEpoch(objs: Objects) {
    forall a, b :: a in objs && b in objs && a.epoch == b.epoch && a.startOffset < b.startOffset ==>
                     EndOf(objs, a) <= b.startOffset
  }

  /** With disjoint objects per epoch, the chain is empty exactly when nothing covers the start. */
  lemma {:induction false} ChainEmptyIffUncovered(objs: Objects, start: nat, limit: nat, hint: nat)
    requires WellFormed(objs) && DisjointPerEpoch(objs)
    ensures Chain(objs, start, limit, hint) == [] <==> forall k :: k in objs ==> !Covers(objs, k, start)
  {
    ChainIsChain(objs, start, limit, hint);
    var c := Chain(objs, start, limit, hint);
    if c == [] {
      forall k | k in objs
        ensures !Covers(objs, k, start)
      {
        assert !CoveredIn(objs, k.epoch, start);
        assert LastUpTo(objs, k.epoch, start).Some? ==> LastUpTo(objs, k.epoch, start).value in objs;
      }
    } else {
      assert Covers(objs, c[0], start);
    }
  }

  // ---- The source's loops ---------------------------------------------------------

  /** The first loop of `Objects::get_continuous_objects`: the object covering `off` in the
      earliest epoch. */
  method FindFirst(objs: Objects, off: nat) returns (first: Option<ObjectKey>)
    requires WellFormed(objs)
    ensures first.Some? ==> IsFirst(objs, off, first.value)
    ensures first.None? ==> forall e :: 0 <= e < U16_MAX ==> !CoveredIn(objs, e, off)
  {
    var epochMax: int := EpochMax(objs);
    var epoch: int := EpochMin(objs);
    while epoch <= epochMax
      invariant forall e :: 0 <= e < epoch ==> !CoveredIn(objs, e, off)
    {
      var last := LastUpTo(objs, epoch, off);
      if last.Some? {
        var key := last.value;
        if key.startOffset <= off && EndOf(objs, key) > off {
          return last;
        }
      }
      epoch := epoch + 1;
    }
    first := None;
  }

  /** The second loop: objects that start exactly where the previous one ended. The counter may
      overflow when an object is added. */
  method FollowOn(objs: Objects, first: ObjectKey, ghost start: nat, limit: nat, hint: u32)
    returns (keys: seq<ObjectKey>, currentOffset: nat, size: nat, overflow: bool)
    requires WellFormed(objs) && IsFirst(objs, start, first)
    ensures keys != [] && IsChain(objs, start, limit, hint, keys)
    ensures overflow <==> TailSize(objs, keys) > U32_MAX
    ensures currentOffset == ChainEnd(objs, keys, start)
    ensures !overflow ==> size == TailSize(objs, keys)
  {
    keys := [first];
    currentOffset := EndOf(objs, first);
    size := 0;
    overflow := false;
    var epochMax: int := EpochMax(objs);
    var epoch: int := first.epoch;
    while epoch <= epochMax && currentOffset < limit && size < hint
      invariant IsPartial(objs, start, limit, hint, keys)
      invariant keys[|keys| - 1].epoch <= epoch
      invariant NoneAt(objs, currentOffset, keys[|keys| - 1].epoch, epoch)
      invariant currentOffset == EndOf(objs, keys[|keys| - 1])
      invariant size == Size(objs, keys[1..]) <= U32_MAX && !overflow
      decreases epochMax + 1 - epoch, U64_MAX - currentOffset
    {
      var key := ObjectKey(epoch, currentOffset);
      if key in objs {
        PartialSnoc(objs, start, limit, hint, keys, key);
        keys := keys + [key];
        currentOffset := EndOf(objs, key);
        if size + objs[key].dataLen > U32_MAX {
          overflow := true;
          return;
        }
        size := size + objs[key].dataLen;
      } else {
        epoch := epoch + 1;
      }
    }
  }

  /** `Objects::get_continuous_objects`. */
  method GetContinuousObjects(objs: Objects, startOffset: nat, endOffset: Option<nat>, sizeHint: Option<u32>)
    returns (r: Result<(seq<ObjectMetadata>, bool), Abort>)
    requires WellFormed(objs)
    ensures var limit := endOffset.GetOr(U64_MAX);
            var hint := sizeHint.GetOr(U32_MAX);
            var c := Chain(objs, startOffset, limit, hint);
            && (r.Err? <==> TailSize(objs, c) > U32_MAX)
            && (r.Ok? ==> r.value.0 == Metas(objs, c))
            && (r.Ok? ==> (r.value.1 <==> ChainEnd(objs, c, startOffset) >= limit || TailSize(objs, c) >= hint))
  {
    var limit := endOffset.GetOr(U64_MAX);
    var hint := sizeHint.GetOr(U32_MAX);
    var first := FindFirst(objs, startOffset);
    var keys, currentOffset, size, overflow := [], startOffset, 0, false;
    if first.Some? {
      keys, currentOffset, size, overflow := FollowOn(objs, first.value, startOffset, limit, hint);
    }
    ChainCharacterised(objs, startOffset, limit, hint, keys);
    if overflow {
      return Err(Overflow);
    }
    return Ok((Metas(objs, keys), currentOffset >= limit || size >= hint));
  }
}
