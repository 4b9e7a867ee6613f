/**
 Accounting of the bytes that wait to be offloaded (components/object-storage/src/object_storage.rs,
 components/object-storage/src/range_accumulator.rs).

 Whether a flush is due depends on the clock, so the set of expired ranges is an argument. The
 order in which a hash set is walked is left open. Messages to the read loop are not part of this
 module.
 */
module OffloadCache {
  import opened Prelude
  import opened ResourceModel

  datatype Config = Config(objectSize: nat, partSize: nat, maxCacheSize: nat, cacheLowWatermark: nat)

  // ---- One accumulator ------------------------------------------------------------

  /** The new size, the change reported, and whether a part is full. */
  function Accumulated(size: nat, records: nat, c: Config): (nat, int, bool) {
    if size + records >= c.objectSize then (0, -AsI32(size), false)
    else (size + records, AsI32(records), size + records >= c.partSize)
  }

  function PartTaken(size: nat, c: Config): (nat, int) {
    if size >= c.partSize then (0, -AsI32(size)) else (size, 0)
  }

  /** Taking the records overflows 32 bits, or negating the old size as a signed integer does. */
  predicate AccumulateAborts(size: nat, records: nat, c: Config) {
    size + records > U32_MAX || (size + records >= c.objectSize && size == I32_LIMIT)
  }

  predicate TakeAborts(size: nat, c: Config) { size >= c.partSize && size == I32_LIMIT }

  predicate FitsI32(n: int) { 0 <= n + I32_LIMIT < U32_BASE }

  /** Sizes are taken exactly as long as the 32-bit sum has a value, and handed on exactly as long as the
      negated size has one. */
  lemma {:induction false} AbortsExactly(size: u32, records: u32, c: Config)
    ensures AccumulateAborts(size, records, c)
        <==> size + records > U32_MAX || (c.objectSize <= size + records && !FitsI32(-AsI32(size)))
    ensures TakeAborts(size, c) <==> c.partSize <= size && !FitsI32(-AsI32(size))
  {
  }

  class DefaultRangeAccumulator {
    const config: Config
    var size: nat

    constructor (config: Config)
      ensures size == 0 && this.config == config
    {
      this.config := config;
      size := 0;
    }

    /** The records are taken, or everything is handed on and the size starts again; it stays below the
        object size, and what is reported is by how much it changed, as long as sizes keep their sign. */
    method Accumulate(records: u32) returns (r: Result<(int, bool), Abort>)
      requires size <= U32_MAX
      modifies this
      ensures r.Err? <==> AccumulateAborts(old(size), records, config)
      ensures r.Ok? ==> (size == 0 || size == old(size) + records) && size <= U32_MAX
      ensures r.Ok? && 0 < config.objectSize ==> size < config.objectSize
      ensures r.Ok? && old(size) < I32_LIMIT && records < I32_LIMIT ==> r.value.0 == size - old(size)
      ensures r.Ok? ==> (r.value.1 <==> config.partSize <= old(size) + records < config.objectSize)
      ensures r.Ok? ==> (size, r.value.0, r.value.1) == Accumulated(old(size), records, config)
    {
      if size + records > U32_MAX {
        return Err(Overflow);
      }
      if size + records >= config.objectSize {
        var change := AsI32(size);
        if change + I32_LIMIT == 0 {
          return Err(Overflow);
        }
        size := 0;
        return Ok((-change, false));
      }
      size := size + records;
      return Ok((AsI32(records), size >= config.partSize));
    }

    /** An expired accumulator hands on everything. */
    method TryFlush(expired: bool) returns (r: Result<int, Abort>)
      requires size <= U32_MAX
      modifies this
      ensures r.Err? <==> expired && old(size) == I32_LIMIT
      ensures r.Ok? ==> size == (if expired then 0 else old(size)) && r.value == if expired then -AsI32(old(size)) else 0
    {
      if size != 0 && expired {
        var change := AsI32(size);
        if change + I32_LIMIT == 0 {
          return Err(Overflow);
        }
        size := 0;
        return Ok(-change);
      }
      return Ok(0);
    }

    /** No full part is left, and what is reported is by how much the size changed, as long as it keeps
        its sign. */
    method TryOffloadPart() returns (r: Result<int, Abort>)
      requires size <= U32_MAX
      modifies this
      ensures r.Err? <==> TakeAborts(old(size), config)
      ensures r.Ok? ==> (size == 0 || (size == old(size) && size < config.partSize))
      ensures r.Ok? && old(size) < I32_LIMIT ==> r.value == size - old(size)
      ensures r.Ok? ==> (size, r.value) == PartTaken(old(size), config)
    {
      if size >= config.partSize {
        var change := AsI32(size);
        if change + I32_LIMIT == 0 {
          return Err(Overflow);
        }
        size := 0;
        return Ok(-change);
      }
      return Ok(0);
    }
  }

  // ---- The storage as a value -----------------------------------------------------

  datatype StorageState = StorageState(sizes: map<RangeId, nat>, partFull: set<RangeId>, cacheSize: int) {
    /** `try_offload_part` on one range, if it has an accumulator. */
    function Offload(key: RangeId, c: Config): StorageState {
      if key !in sizes then this
      else
        var (size, change) := PartTaken(sizes[key], c);
        StorageState(sizes[key := size], partFull, cacheSize + change)
    }

    function OffloadAll(keys: seq<RangeId>, c: Config): StorageState
      decreases |keys|
    {
      if keys == [] then this else OffloadAll(keys[..|keys| - 1], c).Offload(keys[|keys| - 1], c)
    }

    /** After the accumulator has taken the records. */
    function Grown(key: RangeId, records: nat, c: Config): StorageState
      requires key in sizes
    {
      var (size, change, _) := Accumulated(sizes[key], records, c);
      StorageState(sizes[key := size], partFull, cacheSize + change)
    }

    predicate FillsPart(key: RangeId, records: nat, c: Config)
      requires key in sizes
    {
      Accumulated(sizes[key], records, c).2
    }

    /** The accumulated bytes have reached the limit of the cache. */
    predicate OverLimit(c: Config) { AsU64(cacheSize) >= c.maxCacheSize }

    /** What the walk over the part-full ranges starts from. */
    function BeforeWalk(key: RangeId, records: nat, c: Config): StorageState
      requires key in sizes
    {
      if FillsPart(key, records, c) then Grown(key, records, c).Offload(key, c) else Grown(key, records, c)
    }

    /** The ranges `taken`, in that order, are what a walk over the part-full ranges offloads: ranges
        with an accumulator, until the cache is under the low watermark or none is left. */
    ghost predicate Walk(taken: seq<RangeId>, c: Config) {
      && (forall i :: 0 <= i < |taken| ==> taken[i] in partFull && taken[i] in sizes)
      && (forall i, j :: 0 <= i < j < |taken| ==> taken[i] != taken[j])
      && (forall i :: 0 < i < |taken| ==> OffloadAll(taken[..i], c).cacheSize >= c.cacheLowWatermark)
      && (|| (taken != [] && OffloadAll(taken, c).cacheSize < c.cacheLowWatermark)
          || forall k :: k in partFull && k in sizes ==> k in taken)
    }

    function WalkOver(taken: seq<RangeId>, c: Config): StorageState {
      OffloadAll(taken, c).(partFull := partFull - set k | k in taken)
    }

    /** The commit overflows: taking the records does, or handing on one of the parts. */
    predicate Aborts(key: RangeId, records: nat, taken: seq<RangeId>, c: Config) {
      && key in sizes
      && (|| AccumulateAborts(sizes[key], records, c)
          || (&& Grown(key, records, c).OverLimit(c)
              && (|| (FillsPart(key, records, c) && TakeAborts(Grown(key, records, c).sizes[key], c))
                  || exists i :: 0 <= i < |taken| && taken[i] in sizes
                                 && TakeAborts(BeforeWalk(key, records, c).sizes[taken[i]], c))))
    }

    /** `new_commit`; `taken` is what its walk offloads, if it comes to one. */
    ghost predicate CommitOk(key: RangeId, records: nat, taken: seq<RangeId>, c: Config) {
      key in sizes && Grown(key, records, c).OverLimit(c) ==> BeforeWalk(key, records, c).Walk(taken, c)
    }

    function Commit(key: RangeId, records: nat, taken: seq<RangeId>, c: Config): StorageState {
      if key !in sizes then this
      else if Grown(key, records, c).OverLimit(c) then BeforeWalk(key, records, c).WalkOver(taken, c)
      else if FillsPart(key, records, c) then Grown(key, records, c).(partFull := partFull + {key})
      else Grown(key, records, c)
    }

    /** The accumulator of a range is replaced, or goes away; the bytes it held stay counted. */
    function AddRange(key: RangeId): StorageState { this.(sizes := sizes[key := 0]) }

    function RemoveRange(key: RangeId): StorageState { this.(sizes := sizes - {key}) }

    predicate FlushAborts(expired: set<RangeId>) {
      exists k :: k in sizes && k in expired && sizes[k] == I32_LIMIT
    }

    /** The changes that flushes report are dropped. */
    function ForceFlush(expired: set<RangeId>): StorageState {
      this.(sizes := map k | k in sizes :: if k in expired then 0 else sizes[k])
    }
  }

  // ---- The class ------------------------------------------------------------------

  class DefaultObjectStorage {
    const config: Config
    var ranges: map<RangeId, DefaultRangeAccumulator>
    var partFullRanges: set<RangeId>
    var cacheSize: int

    /** Each range has an accumulator of its own. */
    ghost predicate Valid()
      reads this, ranges.Values
    {
      && (forall k :: k in ranges ==> ranges[k].config == config && ranges[k].size <= U32_MAX)
      && forall k, l :: k in ranges && l in ranges && k != l ==> ranges[k] != ranges[l]
    }

    ghost function View(): StorageState
      reads this, ranges.Values
    {
      StorageState(map k | k in ranges :: ranges[k].size, partFullRanges, cacheSize)
    }

    constructor (config: Config)
      ensures Valid() && this.config == config && ranges == map[] && View() == StorageState(map[], {}, 0)
    {
      this.config := config;
      ranges, partFullRanges, cacheSize := map[], {}, 0;
    }

    method AddRange(key: RangeId)
      requires Valid()
      modifies this
      ensures Valid() && View() == old(View()).AddRange(key)
      ensures ranges.Keys == old(ranges.Keys) + {key} && fresh(ranges.Values - old(ranges.Values))
    {
      var accumulator := new DefaultRangeAccumulator(config);
      ranges := ranges[key := accumulator];
    }

    method RemoveRange(key: RangeId)
      requires Valid()
      modifies this
      ensures Valid() && View() == old(View()).RemoveRange(key)
      ensures ranges == old(ranges) - {key}
    {
      ranges := ranges - {key};
    }

    /** One range of the walk. */
    method OffloadOne(key: RangeId) returns (ok: bool)
      requires Valid() && key in ranges
      modifies `cacheSize, ranges[key]
      ensures ok <==> !TakeAborts(old(ranges[key].size), config)
      ensures ok ==> Valid() && View() == old(View()).Offload(key, config)
    {
      hide AsI32, PartTaken, TakeAborts;
      var change := ranges[key].TryOffloadPart();
      if change.Err? {
        return false;
      }
      cacheSize := cacheSize + change.value;
      return true;
    }

    /** One accumulator takes the records of a commit. */
    method Grow(key: RangeId, records: u32) returns (r: Result<bool, Abort>)
      requires Valid() && key in ranges
      modifies `cacheSize, ranges[key]
      ensures r.Err? <==> AccumulateAborts(old(ranges[key].size), records, config)
      ensures r.Ok? ==> Valid() && View() == old(View()).Grown(key, records, config)
      ensures r.Ok? ==> r.value == old(View()).FillsPart(key, records, config)
    {
      hide AsI32, Accumulated, AccumulateAborts;
      var taken := ranges[key].Accumulate(records);
      if taken.Err? {
        return Err(Overflow);
      }
      cacheSize := cacheSize + taken.value.0;
      return Ok(taken.value.1);
    }

    /** One turn of the walk. */
    method WalkOne(key: RangeId, ghost start: StorageState, ghost todo: set<RangeId>, ghost taken: seq<RangeId>) returns (ok: bool)
      requires Valid() && key in ranges && key in todo && Walking(start, todo, taken, config)
      requires View() == start.OffloadAll(taken, config) && start.sizes.Keys == ranges.Keys
      modifies `cacheSize, ranges[key]
      ensures ok <==> NoneAborts(start, taken + [key], config)
      ensures ok ==> Valid() && View() == start.OffloadAll(taken + [key], config)
      ensures ok ==> if cacheSize < config.cacheLowWatermark then start.Walk(taken + [key], config)
                     else Walking(start, todo - {key}, taken + [key], config)
    {
      hide StorageState.Offload, StorageState.OffloadAll, StorageState.Walk, Walking, NoneAborts, TakeAborts;
      WalkStep(start, todo, taken, key, config);
      assert View().sizes[key] == start.sizes[key];
      ok := OffloadOne(key);
    }

    /** The walk over the part-full ranges; it ends early only where handing on a part overflows. */
    method WalkRanges() returns (ok: bool, removeKeys: seq<RangeId>)
      requires Valid()
      modifies `cacheSize, ranges.Values
      ensures ok ==> Valid() && old(View()).Walk(removeKeys, config) && View() == old(View()).OffloadAll(removeKeys, config)
      ensures ok <==> NoneAborts(old(View()), removeKeys, config)
    {
      hide StorageState.Offload, StorageState.OffloadAll, StorageState.Walk, Walking, NoneAborts, TakeAborts, Valid;
      ghost var start := View();
      var todo := partFullRanges;
      removeKeys := [];
      WalkBegins(start, config);
      while todo != {}
        invariant start.sizes.Keys == ranges.Keys && Valid()
        invariant View() == start.OffloadAll(removeKeys, config) && Walking(start, todo, removeKeys, config)
        decreases todo
      {
        var key :| key in todo;
        if key in ranges {
          var done := WalkOne(key, start, todo, removeKeys);
          removeKeys := removeKeys + [key];
          if !done || cacheSize < config.cacheLowWatermark {
            return done, removeKeys;
          }
        } else {
          WalkStep(start, todo, removeKeys, key, config);
        }
        todo := todo - {key};
      }
      WalkEnds(start, removeKeys, config);
      return true, removeKeys;
    }

    method OffloadPartFull() returns (ok: bool, ghost taken: seq<RangeId>)
      requires Valid()
      modifies `cacheSize, `partFullRanges, ranges.Values
      ensures ok ==> Valid() && old(View()).Walk(taken, config) && View() == old(View()).WalkOver(taken, config)
      ensures ok <==> NoneAborts(old(View()), taken, config)
    {
      hide StorageState.Offload, StorageState.OffloadAll, StorageState.Walk, NoneAborts;
      var removeKeys: seq<RangeId>;
      ghost var start := View();
      ok, removeKeys := WalkRanges();
      taken := removeKeys;
      if ok {
        SameRanges(start, taken, config);
        partFullRanges := partFullRanges - set k | k in removeKeys;
      }
    }

    /** A commit; `taken` is the walk it made, or made until it aborted. */
    method NewCommit(key: RangeId, records: u32) returns (ok: bool, ghost taken: seq<RangeId>)
      requires Valid()
      modifies this, ranges.Values
      ensures ok <==> !old(View()).Aborts(key, records, taken, config)
      ensures ok ==> Valid() && ranges == old(ranges)
      ensures ok ==> old(View()).CommitOk(key, records, taken, config)
      ensures ok ==> View() == old(View()).Commit(key, records, taken, config)
    {
      hide StorageState.Offload, StorageState.Grown, StorageState.FillsPart, StorageState.Walk, StorageState.WalkOver, TakeAborts,
           AccumulateAborts;
      taken := [];
      if key !in ranges {
        return true, taken;
      }
      var partFull := Grow(key, records);
      if partFull.Err? {
        return false, taken;
      }
      if AsU64(cacheSize) < config.maxCacheSize {
        if partFull.value {
          partFullRanges := partFullRanges + {key};
        }
        return true, taken;
      }
      if partFull.value {
        var done := OffloadOne(key);
        if !done {
          return false, taken;
        }
      }
      ok, taken := OffloadPartFull();
    }

    /** One range of the force-flush task; what the flush reports is dropped. */
    method FlushOne(key: RangeId, expired: bool) returns (ok: bool)
      requires Valid() && key in ranges
      modifies ranges[key]
      ensures ok <==> !(expired && old(ranges[key].size) == I32_LIMIT)
      ensures ok ==> Valid() && View() == old(View()).ForceFlush(if expired then {key} else {})
    {
      hide AsI32;
      var change := ranges[key].TryFlush(expired);
      ok := change.Ok?;
    }

    method ForceFlush(expired: set<RangeId>) returns (ok: bool)
      requires Valid()
      modifies ranges.Values
      ensures ok <==> !old(View()).FlushAborts(expired)
      ensures ok ==> Valid() && View() == old(View()).ForceFlush(expired)
    {
      hide Valid, StorageState.ForceFlush, StorageState.FlushAborts;
      ghost var start := View();
      var todo := ranges.Keys;
      FlushNone(start, expired - todo);
      while todo != {}
        invariant todo <= ranges.Keys == start.sizes.Keys && Valid()
        invariant View() == start.ForceFlush(expired - todo) && !start.FlushAborts(expired - todo)
        decreases todo
      {
        var key :| key in todo;
        FlushMore(start, expired - todo, key, key in expired);
        var flushed := FlushOne(key, key in expired);
        assert key !in expired ==> expired - (todo - {key}) == expired - todo;
        assert key in expired ==> expired - (todo - {key}) == (expired - todo) + {key};
        if !flushed {
          FlushAbortsMore(start, key, expired);
          return false;
        }
        todo := todo - {key};
      }
      assert expired - {} == expired;
      return true;
    }
  }

  lemma {:induction false} FlushNone(s: StorageState, gone: set<RangeId>)
    requires gone !! s.sizes.Keys
    ensures s.ForceFlush(gone) == s && !s.FlushAborts(gone)
  {
    assert s.ForceFlush(gone).sizes == s.sizes;
  }

  /** Flushing one range more. */
  lemma {:induction false} FlushMore(s: StorageState, flushed: set<RangeId>, key: RangeId, expired: bool)
    requires key in s.sizes && key !in flushed
    ensures var t := s.ForceFlush(flushed);
            && key in t.sizes && t.sizes[key] == s.sizes[key]
            && t.ForceFlush(if expired then {key} else {}) == (if expired then s.ForceFlush(flushed + {key}) else t)
            && (!s.FlushAborts(flushed) && s.sizes[key] != I32_LIMIT ==> !s.FlushAborts(flushed + {key}))
  {
    var t := s.ForceFlush(flushed);
    assert t.ForceFlush({}).sizes == t.sizes;
    assert t.ForceFlush({key}).sizes == s.ForceFlush(flushed + {key}).sizes;
  }

  lemma {:induction false} FlushAbortsMore(s: StorageState, key: RangeId, expired: set<RangeId>)
    requires key in s.sizes && key in expired && s.sizes[key] == I32_LIMIT
    ensures s.FlushAborts(expired)
  {
  }

  // ---- The walk -------------------------------------------------------------------

  /** No part that the walk hands on overflows. */
  ghost predicate NoneAborts(start: StorageState, taken: seq<RangeId>, c: Config) {
    forall i :: 0 <= i < |taken| && taken[i] in start.sizes ==> !TakeAborts(start.sizes[taken[i]], c)
  }

  /** The walk has `todo` before it and has offloaded `taken`, never getting under the watermark. */
  ghost predicate Walking(start: StorageState, todo: set<RangeId>, taken: seq<RangeId>, c: Config) {
    && NoneAborts(start, taken, c)
    && todo <= start.partFull
    && (forall i :: 0 <= i < |taken| ==> taken[i] in start.partFull && taken[i] !in todo && taken[i] in start.sizes)
    && (forall i, j :: 0 <= i < j < |taken| ==> taken[i] != taken[j])
    && (forall i :: 0 < i <= |taken| ==> start.OffloadAll(taken[..i], c).cacheSize >= c.cacheLowWatermark)
    && (forall k :: k in start.partFull && k !in todo && k in start.sizes ==> k in taken)
  }

  lemma {:induction false} WalkBegins(start: StorageState, c: Config)
    ensures Walking(start, start.partFull, [], c) && start == start.OffloadAll([], c)
  {
  }

  /** The next range of the walk: it has no accumulator, or handing it on overflows, or gets the cache
      under the watermark, or the walk goes on. */
  lemma {:induction false} WalkStep(start: StorageState, todo: set<RangeId>, taken: seq<RangeId>, key: RangeId, c: Config)
    requires Walking(start, todo, taken, c) && key in todo
    ensures key !in start.sizes ==> Walking(start, todo - {key}, taken, c)
    ensures var more := taken + [key];
            && start.OffloadAll(more, c) == start.OffloadAll(taken, c).Offload(key, c)
            && (key in start.sizes ==>
                  && key in start.OffloadAll(taken, c).sizes
                  && start.OffloadAll(taken, c).sizes[key] == start.sizes[key]
                  && (NoneAborts(start, more, c) <==> !TakeAborts(start.sizes[key], c))
                  && (!TakeAborts(start.sizes[key], c) ==>
                        if start.OffloadAll(more, c).cacheSize < c.cacheLowWatermark then start.Walk(more, c)
                        else Walking(start, todo - {key}, more, c)))
  {
    hide StorageState.Offload, StorageState.OffloadAll, TakeAborts;
    var more := taken + [key];
    TookOne(start, taken, key, more, c);
    if key in start.sizes {
      Untouched(start, taken, key, c);
      if start.OffloadAll(more, c).cacheSize >= c.cacheLowWatermark {
        forall k | k in start.partFull && k !in todo - {key} && k in start.sizes
          ensures k in more
        {
          if k != key {
            assert k in taken;
          }
        }
      }
    }
  }

  lemma {:induction false} TookOne(start: StorageState, taken: seq<RangeId>, key: RangeId, more: seq<RangeId>, c: Config)
    requires more == taken + [key]
    ensures start.OffloadAll(more, c) == start.OffloadAll(taken, c).Offload(key, c)
    ensures forall i :: 0 <= i <= |taken| ==> more[..i] == taken[..i]
    ensures more[..|more|] == more && more[|taken|] == key
  {
    assert more[..|taken|] == taken;
  }

  /** A range not taken yet still has the size it had. */
  lemma {:induction false} Untouched(start: StorageState, taken: seq<RangeId>, key: RangeId, c: Config)
    requires key in start.sizes && forall i :: 0 <= i < |taken| ==> taken[i] != key
    ensures var s := start.OffloadAll(taken, c); key in s.sizes && s.sizes[key] == start.sizes[key]
    decreases |taken|
  {
    if taken != [] {
      Untouched(start, taken[..|taken| - 1], key, c);
    }
  }

  lemma {:induction false} WalkEnds(start: StorageState, taken: seq<RangeId>, c: Config)
    requires Walking(start, {}, taken, c)
    ensures start.Walk(taken, c) && NoneAborts(start, taken, c)
  {
  }

  // ---- The accounting over runs -----------------------------------------------------

  /** The bytes in all accumulators. */
  ghost function Total(sizes: map<RangeId, nat>): nat
    decreases |sizes|
  {
    if sizes == map[] then 0
    else
      var k :| k in sizes;
      sizes[k] + Total(sizes - {k})
  }

  lemma {:induction false} TotalSplit(sizes: map<RangeId, nat>, k: RangeId)
    requires k in sizes
    ensures Total(sizes) == sizes[k] + Total(sizes - {k})
    decreases |sizes|
  {
    var l :| l in sizes && Total(sizes) == sizes[l] + Total(sizes - {l});
    if l != k {
      TotalSplit(sizes - {l}, k);
      TotalSplit(sizes - {k}, l);
      assert sizes - {l} - {k} == sizes - {k} - {l};
    }
  }

  lemma {:induction false} TotalSet(sizes: map<RangeId, nat>, k: RangeId, v: nat)
    ensures Total(sizes[k := v]) == Total(sizes - {k}) + v
  {
    TotalSplit(sizes[k := v], k);
    assert sizes[k := v] - {k} == sizes - {k};
  }

  lemma {:induction false} TotalWithout(sizes: map<RangeId, nat>, k: RangeId)
    ensures Total(sizes - {k}) == Total(sizes) - if k in sizes then sizes[k] else 0
  {
    if k in sizes {
      TotalSplit(sizes, k);
    } else {
      assert sizes - {k} == sizes;
    }
  }

  /** Every accumulator is below the object size, and no byte waits uncounted. */
  ghost predicate Counted(s: StorageState, c: Config) {
    && (forall k :: k in s.sizes ==> s.sizes[k] < c.objectSize)
    && Total(s.sizes) <= s.cacheSize
  }

  /** Bytes that are counted although no accumulator holds them. */
  ghost function Slack(s: StorageState): int { s.cacheSize - Total(s.sizes) }

  lemma {:induction false} SetKeeps(s: StorageState, key: RangeId, size: nat, change: int, c: Config)
    requires Counted(s, c) && key in s.sizes && size < c.objectSize && change == size - s.sizes[key]
    ensures var t := s.(sizes := s.sizes[key := size], cacheSize := s.cacheSize + change); Counted(t, c) && Slack(t) == Slack(s)
  {
    hide Total;
    TotalSet(s.sizes, key, size);
    TotalWithout(s.sizes, key);
  }

  lemma {:induction false} OffloadKeeps(s: StorageState, key: RangeId, c: Config)
    requires Counted(s, c) && c.objectSize <= I32_LIMIT
    ensures Counted(s.Offload(key, c), c) && Slack(s.Offload(key, c)) == Slack(s)
  {
    if key in s.sizes {
      var (size, change) := PartTaken(s.sizes[key], c);
      SetKeeps(s, key, size, change, c);
    }
  }

  lemma {:induction false} OffloadAllKeeps(s: StorageState, keys: seq<RangeId>, c: Config)
    requires Counted(s, c) && c.objectSize <= I32_LIMIT
    ensures Counted(s.OffloadAll(keys, c), c) && Slack(s.OffloadAll(keys, c)) == Slack(s)
    decreases |keys|
  {
    if keys != [] {
      OffloadAllKeeps(s, keys[..|keys| - 1], c);
      OffloadKeeps(s.OffloadAll(keys[..|keys| - 1], c), keys[|keys| - 1], c);
    }
  }

  lemma {:induction false} GrownKeeps(s: StorageState, key: RangeId, records: nat, c: Config)
    requires Counted(s, c) && key in s.sizes && 0 < c.objectSize <= I32_LIMIT
    ensures Counted(s.Grown(key, records, c), c) && Slack(s.Grown(key, records, c)) == Slack(s)
  {
    var (size, change, _) := Accumulated(s.sizes[key], records, c);
    SetKeeps(s, key, size, change, c);
  }

  /** A commit counts exactly the bytes by which the accumulators change. */
  lemma {:induction false} CommitKeeps(s: StorageState, key: RangeId, records: nat, taken: seq<RangeId>, c: Config)
    requires Counted(s, c) && 0 < c.objectSize <= I32_LIMIT
    ensures Counted(s.Commit(key, records, taken, c), c) && Slack(s.Commit(key, records, taken, c)) == Slack(s)
  {
    hide StorageState.Grown, StorageState.FillsPart, StorageState.Offload, StorageState.OffloadAll, Total;
    if key in s.sizes {
      GrownKeeps(s, key, records, c);
      OffloadKeeps(s.Grown(key, records, c), key, c);
      OffloadAllKeeps(s.BeforeWalk(key, records, c), taken, c);
    }
  }

  datatype Op = Commit(key: RangeId, records: nat, taken: seq<RangeId>) | AddRange(key: RangeId)
              | RemoveRange(key: RangeId) | ForceFlush(expired: set<RangeId>)

  function Step(s: StorageState, op: Op, c: Config): StorageState {
    match op
    case Commit(key, records, taken) => s.Commit(key, records, taken, c)
    case AddRange(key) => s.AddRange(key)
    case RemoveRange(key) => s.RemoveRange(key)
    case ForceFlush(expired) => s.ForceFlush(expired)
  }

  ghost predicate Enabled(s: StorageState, op: Op, c: Config) {
    op.Commit? ==> op.records <= U32_MAX && s.CommitOk(op.key, op.records, op.taken, c) && !s.Aborts(op.key, op.records, op.taken, c)
  }

  function After(ops: seq<Op>, c: Config): StorageState {
    if ops == [] then StorageState(map[], {}, 0) else Step(After(ops[..|ops| - 1], c), ops[|ops| - 1], c)
  }

  ghost predicate Runs(ops: seq<Op>, c: Config) {
    ops == [] || (Runs(ops[..|ops| - 1], c) && Enabled(After(ops[..|ops| - 1], c), ops[|ops| - 1], c))
  }

  /** The bytes of the ranges in `keys`. */
  ghost function HeldBy(sizes: map<RangeId, nat>, keys: set<RangeId>): nat {
    Total(map k | k in sizes && k in keys :: sizes[k])
  }

  lemma {:induction false} HeldByOne(sizes: map<RangeId, nat>, key: RangeId)
    ensures HeldBy(sizes, {key}) == if key in sizes then sizes[key] else 0
  {
    var one := {key};
    var held := map k | k in sizes && k in one :: sizes[k];
    var none: map<RangeId, nat> := map[];
    assert Total(none) == 0;
    if key in sizes {
      assert held == none[key := sizes[key]];
      TotalSet(none, key, sizes[key]);
      assert none - {key} == none;
    } else {
      assert held == none;
    }
  }

  lemma {:induction false} TotalFlushed(sizes: map<RangeId, nat>, expired: set<RangeId>)
    ensures Total(map k | k in sizes :: if k in expired then 0 else sizes[k]) + HeldBy(sizes, expired) == Total(sizes)
    decreases |sizes|
  {
    var kept := map k | k in sizes :: if k in expired then 0 else sizes[k];
    var held := map k | k in sizes && k in expired :: sizes[k];
    if sizes == map[] {
      assert kept == map[] && held == map[];
    } else {
      var l :| l in sizes;
      var rest := sizes - {l};
      TotalFlushed(rest, expired);
      TotalSplit(sizes, l);
      TotalSplit(kept, l);
      assert kept - {l} == map k | k in rest :: if k in expired then 0 else rest[k];
      assert held - {l} == map k | k in rest && k in expired :: rest[k];
      if l in expired {
        TotalSplit(held, l);
      } else {
        assert held == held - {l};
      }
    }
  }

  /** The bytes an operation takes from the accumulators without counting them. */
  ghost function Dropped(s: StorageState, op: Op): nat {
    match op
    case Commit(_, _, _) => 0
    case AddRange(key) => HeldBy(s.sizes, {key})
    case RemoveRange(key) => HeldBy(s.sizes, {key})
    case ForceFlush(expired) => HeldBy(s.sizes, expired)
  }

  ghost function AllDropped(ops: seq<Op>, c: Config): nat {
    if ops == [] then 0
    else AllDropped(ops[..|ops| - 1], c) + Dropped(After(ops[..|ops| - 1], c), ops[|ops| - 1])
  }

  lemma {:induction false} StepKeeps(s: StorageState, op: Op, c: Config)
    requires Counted(s, c) && 0 < c.objectSize <= I32_LIMIT
    ensures Counted(Step(s, op, c), c) && Slack(Step(s, op, c)) == Slack(s) + Dropped(s, op)
  {
    hide StorageState.Commit, Total, HeldBy;
    match op
    case Commit(key, records, taken) =>
      CommitKeeps(s, key, records, taken, c);
    case AddRange(key) =>
      TotalSet(s.sizes, key, 0);
      TotalWithout(s.sizes, key);
      HeldByOne(s.sizes, key);
    case RemoveRange(key) =>
      TotalWithout(s.sizes, key);
      HeldByOne(s.sizes, key);
    case ForceFlush(expired) =>
      TotalFlushed(s.sizes, expired);
  }

  lemma {:induction false} RunKeeps(ops: seq<Op>, c: Config)
    requires 0 < c.objectSize <= I32_LIMIT
    ensures Counted(After(ops, c), c) && Slack(After(ops, c)) == AllDropped(ops, c)
    decreases |ops|
  {
    hide Dropped;
    if ops != [] {
      RunKeeps(ops[..|ops| - 1], c);
      StepKeeps(After(ops[..|ops| - 1], c), ops[|ops| - 1], c);
    } else {
      assert Total(map[]) == 0;
    }
  }

  /** With an object size of at most 2^31, a commit aborts exactly when the records do not fit the 32-bit
      size. */
  lemma {:induction false} CommitAbortsIff(s: StorageState, key: RangeId, records: nat, taken: seq<RangeId>, c: Config)
    requires Counted(s, c) && 0 < c.objectSize <= I32_LIMIT
    ensures s.Aborts(key, records, taken, c) <==> key in s.sizes && s.sizes[key] + records > U32_MAX
  {
    if key in s.sizes {
      hide StorageState.Grown, StorageState.FillsPart, StorageState.Offload, Total, StorageState.OverLimit;
      GrownKeeps(s, key, records, c);
      OffloadKeeps(s.Grown(key, records, c), key, c);
    }
  }

  /** Over every run with an object size of at most 2^31, the cache size is exactly the bytes in all
      accumulators and those that accumulators held when they were flushed, replaced or removed. */
  lemma {:induction false} CacheConserves(ops: seq<Op>, c: Config)
    requires 0 < c.objectSize <= I32_LIMIT
    ensures After(ops, c).cacheSize == Total(After(ops, c).sizes) + AllDropped(ops, c)
  {
    RunKeeps(ops, c);
  }

  /** A commit of half the 32-bit range is counted as negative. */
  lemma {:induction false} LargeObjectsMiscount(c: Config, ops: seq<Op>)
    requires I32_LIMIT < c.objectSize <= U32_MAX && c.partSize == c.objectSize && c.maxCacheSize == U64_MAX
    requires ops == [AddRange((0, 0)), Commit((0, 0), I32_LIMIT, [])]
    ensures Runs(ops, c) && !Counted(After(ops, c), c)
  {
    var first := [AddRange((0, 0))];
    assert ops[..1] == first && first[..0] == [];
    assert After([], c) == StorageState(map[], {}, 0);
    assert After(first, c) == StorageState(map[(0, 0) := 0], {}, 0);
    var before, last := After(first, c), Commit((0, 0), I32_LIMIT, []);
    assert !before.Aborts((0, 0), I32_LIMIT, [], c) && !before.Grown((0, 0), I32_LIMIT, c).OverLimit(c);
    assert Runs([], c) && Runs(first, c) && Enabled(before, last, c);
    assert After(ops, c).cacheSize == AsI32(I32_LIMIT) < 0;
  }

  /** Over every run of commits, force flushes and ownership changes, for every part size and every
      cache limit: each accumulator stays below the object size and the cache size is at least the
      bytes in all accumulators, if and only if the object size is at most 2^31. */
  lemma {:induction false} CacheAccounting(objectSize: nat)
    requires 0 < objectSize <= U32_MAX
    ensures objectSize <= I32_LIMIT
            <==> forall c: Config, ops: seq<Op> :: c.objectSize == objectSize && Runs(ops, c) ==> Counted(After(ops, c), c)
  {
    if objectSize <= I32_LIMIT {
      forall c: Config, ops: seq<Op> | c.objectSize == objectSize && Runs(ops, c)
        ensures Counted(After(ops, c), c)
      {
        RunKeeps(ops, c);
      }
    } else {
      LargeObjectsMiscount(Config(objectSize, objectSize, U64_MAX, 0), [AddRange((0, 0)), Commit((0, 0), I32_LIMIT, [])]);
    }
  }

  /** After a commit that finds the cache over its limit, the cache is under the low watermark, or
      every range still marked part-full has no accumulator; the ranges that were handed on, and no
      others, start again. */
  lemma {:induction false} OverLimitCommit(s: StorageState, key: RangeId, records: nat, taken: seq<RangeId>, c: Config)
    requires key in s.sizes && AsU64(s.Grown(key, records, c).cacheSize) >= c.maxCacheSize && s.CommitOk(key, records, taken, c)
    ensures var t := s.Commit(key, records, taken, c);
            && (t.cacheSize < c.cacheLowWatermark || forall k :: k in t.partFull ==> k !in t.sizes)
            && t.sizes.Keys == s.sizes.Keys
            && forall k :: k in t.sizes ==>
                 var size := if k == key then Accumulated(s.sizes[k], records, c).0 else s.sizes[k];
                 var handed := k in taken || (k == key && s.FillsPart(key, records, c));
                 t.sizes[k] == if handed && c.partSize <= size then 0 else size
  {
    var b := s.BeforeWalk(key, records, c);
    SameRanges(b, taken, c);
    forall k | k in s.sizes
      ensures b.OffloadAll(taken, c).sizes[k] == if k in taken && c.partSize <= b.sizes[k] then 0 else b.sizes[k]
    {
      HandedOn(b, taken, k, c);
    }
    if b.OffloadAll(taken, c).cacheSize >= c.cacheLowWatermark {
      assert forall k :: k in b.partFull && k in b.sizes ==> k in taken;
    }
  }

  /** A commit that leaves the cache under its limit takes the records or starts the range again, and marks
      the range exactly if it now holds a full part; no other range changes. */
  lemma {:induction false} UnderLimitCommit(s: StorageState, key: RangeId, records: nat, taken: seq<RangeId>, c: Config)
    requires key in s.sizes && AsU64(s.Grown(key, records, c).cacheSize) < c.maxCacheSize
    ensures var t, size := s.Commit(key, records, taken, c), s.sizes[key] + records;
            && t.sizes == s.sizes[key := if size < c.objectSize then size else 0]
            && t.partFull == s.partFull + (if c.partSize <= size < c.objectSize then {key} else {})
            && (s.sizes[key] < I32_LIMIT && records < I32_LIMIT ==> t.cacheSize + s.sizes[key] == s.cacheSize + t.sizes[key])
  {
  }

  lemma {:induction false} HandedOn(s: StorageState, keys: seq<RangeId>, k: RangeId, c: Config)
    requires k in s.sizes
    ensures var t := s.OffloadAll(keys, c); k in t.sizes && t.sizes[k] == if k in keys && c.partSize <= s.sizes[k] then 0 else s.sizes[k]
    decreases |keys|
  {
    if keys != [] {
      var n := |keys| - 1;
      HandedOn(s, keys[..n], k, c);
      assert keys == keys[..n] + [keys[n]];
    }
  }

  lemma {:induction false} SameRanges(s: StorageState, keys: seq<RangeId>, c: Config)
    ensures s.OffloadAll(keys, c).sizes.Keys == s.sizes.Keys && s.OffloadAll(keys, c).partFull == s.partFull
    decreases |keys|
  {
    if keys != [] {
      SameRanges(s, keys[..|keys| - 1], c);
    }
  }
}
