/**
 The two-list cache (components/cache/src/lib.rs): an ordered map, an active and an inactive list in
 least-recently-used order, and a byte counter for each list.

 Keys are integers. A list holds its least recently used item first.
 */
module HierarchicalCache {
  import opened Prelude

  /** A cached value and the size it reports. */
  datatype Value = Value(content: bytes, size: nat)

  datatype Item = Item(key: int, value: Value)

  // ---- Lists ----------------------------------------------------------------------

  function KeySet(l: seq<Item>): set<int> {
    set i | 0 <= i < |l| :: l[i].key
  }

  predicate Distinct(l: seq<Item>) {
    forall i, j :: 0 <= i < j < |l| ==> l[i].key != l[j].key
  }

  function Sum(l: seq<Item>): nat {
    if l == [] then 0 else l[0].value.size + Sum(l[1..])
  }

  lemma {:induction false} SumConcat(a: seq<Item>, b: seq<Item>)
    ensures Sum(a + b) == Sum(a) + Sum(b)
  {
    if a == [] {
      assert a + b == b;
    } else {
      SumConcat(a[1..], b);
      assert (a + b)[1..] == a[1..] + b;
    }
  }

  lemma {:induction false} PopFirst(l: seq<Item>)
    requires l != [] && Distinct(l)
    ensures Distinct(l[1..]) && KeySet(l[1..]) == KeySet(l) - {l[0].key} && l[0].key in KeySet(l)
    ensures Sum(l) == l[0].value.size + Sum(l[1..])
  {
    assert forall i :: 0 <= i < |l[1..]| ==> l[1..][i] == l[i + 1];
    forall k | k in KeySet(l) && k != l[0].key
      ensures k in KeySet(l[1..])
    {
      var i :| 0 <= i < |l| && l[i].key == k;
      assert l[1..][i - 1].key == k;
    }
  }

  lemma {:induction false} PutLast(l: seq<Item>, it: Item)
    requires Distinct(l) && it.key !in KeySet(l)
    ensures Distinct(l + [it]) && KeySet(l + [it]) == KeySet(l) + {it.key}
    ensures Sum(l + [it]) == Sum(l) + it.value.size
  {
    var more := l + [it];
    SumConcat(l, [it]);
    assert more[|l|] == it;
    forall k | k in KeySet(l)
      ensures k in KeySet(more)
    {
      var i :| 0 <= i < |l| && l[i].key == k;
      assert more[i].key == k;
    }
  }

  /** Where the key is; the length of the list if it is not there. */
  function Find(l: seq<Item>, key: int): (i: nat)
    ensures i <= |l|
    ensures i < |l| ==> l[i].key == key
    ensures forall j :: 0 <= j < i ==> l[j].key != key
    ensures i < |l| <==> key in KeySet(l)
  {
    if l == [] then 0
    else if l[0].key == key then 0
    else
      var i := Find(l[1..], key);
      assert forall j :: 0 <= j < |l[1..]| ==> l[1..][j] == l[j + 1];
      assert i < |l[1..]| ==> l[1..][i] == l[i + 1];
      assert key in KeySet(l) ==> key in KeySet(l[1..]) by {
        if key in KeySet(l) {
          var j :| 0 <= j < |l| && l[j].key == key;
          assert l[1..][j - 1].key == key;
        }
      }
      i + 1
  }

  /** `promote`: the item, if it is there, becomes the most recently used one. */
  function Promote(l: seq<Item>, key: int): seq<Item> {
    var i := Find(l, key);
    if i == |l| then l else l[..i] + l[i + 1..] + [l[i]]
  }

  lemma {:induction false} SumWithout(l: seq<Item>, i: nat)
    requires i < |l|
    ensures Sum(l[..i] + l[i + 1..]) + l[i].value.size == Sum(l)
  {
    SumConcat(l[..i], l[i + 1..]);
    SumConcat(l[..i], l[i..]);
    assert l[..i] + l[i..] == l && l[i..][1..] == l[i + 1..];
  }

  lemma {:induction false} KeysWithout(l: seq<Item>, i: nat, rest: seq<Item>)
    requires i < |l| && Distinct(l) && |rest| == |l| - 1
    requires forall j :: 0 <= j < |rest| ==> rest[j] == l[if j < i then j else j + 1]
    ensures Distinct(rest) && KeySet(rest) == KeySet(l) - {l[i].key}
  {
    forall k | k in KeySet(l) && k != l[i].key
      ensures k in KeySet(rest)
    {
      var j :| 0 <= j < |l| && l[j].key == k;
      assert rest[if j < i then j else j - 1].key == k;
    }
  }

  /** Promoting changes the order only. */
  lemma {:induction false} PromoteKeeps(l: seq<Item>, key: int)
    requires Distinct(l)
    ensures Distinct(Promote(l, key)) && KeySet(Promote(l, key)) == KeySet(l) && Sum(Promote(l, key)) == Sum(l)
  {
    var i := Find(l, key);
    if i < |l| {
      hide Sum;
      SumWithout(l, i);
      KeysWithout(l, i, l[..i] + l[i + 1..]);
      PutLast(l[..i] + l[i + 1..], l[i]);
    }
  }

  // ---- The cache as a value -------------------------------------------------------

  datatype Limits = Limits(maxActive: nat, maxCache: nat)

  datatype CacheState = CacheState(entries: map<int, Value>, active: seq<Item>, activeSize: int,
                                   inactive: seq<Item>, inactiveSize: int)
  {
    predicate Cached(key: int) { key in KeySet(active) || key in KeySet(inactive) }

    function Size(): int { activeSize + inactiveSize }

    /** Drop the least recently used inactive item, from the list and from the map. */
    function EvictOne(): CacheState
      requires inactive != []
    {
      CacheState(entries - {inactive[0].key}, active, activeSize, inactive[1..], inactiveSize - inactive[0].value.size)
    }

    function Evict(minFree: nat, lim: Limits): CacheState
      decreases |inactive|
    {
      if inactive == [] then this
      else if EvictOne().Size() + minFree <= lim.maxCache then EvictOne()
      else EvictOne().Evict(minFree, lim)
    }

    function ReclaimInactive(minFree: nat, lim: Limits): CacheState {
      if inactive == [] || Size() + minFree <= lim.maxCache then this else Evict(minFree, lim)
    }

    /** Move the least recently used active item to the inactive list. */
    function DemoteOne(): CacheState
      requires active != []
    {
      CacheState(entries, active[1..], activeSize - active[0].value.size,
                 inactive + [active[0]], inactiveSize + active[0].value.size)
    }

    function Demote(minFree: nat, lim: Limits): CacheState
      decreases |active|
    {
      if active == [] then this
      else if DemoteOne().activeSize + minFree <= lim.maxActive then DemoteOne()
      else DemoteOne().Demote(minFree, lim)
    }

    function ReclaimActive(minFree: nat, lim: Limits): CacheState {
      if active == [] || activeSize + minFree <= lim.maxActive then this
      else
        var t := Demote(minFree, lim);
        t.ReclaimInactive(Max(t.inactiveSize - inactiveSize, 0), lim)
    }

    function PushActive(key: int, value: Value, lim: Limits): CacheState {
      if Cached(key) then this.(entries := entries[key := value])
      else
        var t := ReclaimActive(value.size, lim);
        t.(active := t.active + [Item(key, value)], activeSize := t.activeSize + value.size,
           entries := t.entries[key := value])
    }

    function PushInactive(key: int, value: Value, lim: Limits): CacheState {
      if Cached(key) then this.(entries := entries[key := value])
      else
        var t := ReclaimInactive(value.size, lim);
        t.(inactive := t.inactive + [Item(key, value)], inactiveSize := t.inactiveSize + value.size,
           entries := t.entries[key := value])
    }

    function Touch(key: int): CacheState {
      this.(active := Promote(active, key), inactive := Promote(inactive, key))
    }

    /** A lookup moves a cached key to the head of its list. */
    function Get(key: int): CacheState { if key in entries then Touch(key) else this }

    /** A range search looks up every key from `low` up to `high`. */
    function Search(low: int, high: int): CacheState
      decreases high - low
    {
      if high <= low then this else Search(low, high - 1).Get(high - 1)
    }
  }

  // ---- The class ------------------------------------------------------------------

  class HierarchicalCache {
    const limits: Limits
    var entries: map<int, Value>
    var active: seq<Item>
    var activeSize: int
    var inactive: seq<Item>
    var inactiveSize: int

    ghost function View(): CacheState
      reads this
    {
      CacheState(entries, active, activeSize, inactive, inactiveSize)
    }

    constructor (maxCacheSize: nat, maxActiveSize: nat)
      ensures View() == CacheState(map[], [], 0, [], 0) && limits == Limits(maxActiveSize, maxCacheSize)
    {
      limits := Limits(maxActiveSize, maxCacheSize);
      entries, active, activeSize, inactive, inactiveSize := map[], [], 0, [], 0;
    }

    method PushActive(key: int, value: Value)
      modifies this
      ensures View() == old(View()).PushActive(key, value, limits)
    {
      if key in KeySet(active) || key in KeySet(inactive) {
        entries := entries[key := value];
        return;
      }
      ReclaimActiveList(value.size);
      active := active + [Item(key, value)];
      activeSize := activeSize + value.size;
      entries := entries[key := value];
    }

    method PushInactive(key: int, value: Value)
      modifies this
      ensures View() == old(View()).PushInactive(key, value, limits)
    {
      if key in KeySet(active) || key in KeySet(inactive) {
        entries := entries[key := value];
        return;
      }
      ReclaimInactiveList(value.size);
      inactive := inactive + [Item(key, value)];
      inactiveSize := inactiveSize + value.size;
      entries := entries[key := value];
    }

    method ReclaimActiveList(minFree: nat)
      modifies this
      ensures View() == old(View()).ReclaimActive(minFree, limits)
    {
      if active == [] || activeSize + minFree <= limits.maxActive {
        return;
      }
      var demotionSize: nat := 0;
      ghost var start := View();
      while active != []
        invariant start.Demote(minFree, limits) == View().Demote(minFree, limits)
        invariant demotionSize == inactiveSize - start.inactiveSize
        decreases |active|
      {
        var item := active[0];
        ghost var before := View();
        active := active[1..];
        activeSize := activeSize - item.value.size;
        inactive := inactive + [item];
        inactiveSize := inactiveSize + item.value.size;
        demotionSize := demotionSize + item.value.size;
        assert View() == before.DemoteOne();
        if activeSize + minFree <= limits.maxActive {
          break;
        }
      }
      assert View() == start.Demote(minFree, limits);
      ReclaimInactiveList(demotionSize);
    }

    method ReclaimInactiveList(minFree: nat)
      modifies this
      ensures View() == old(View()).ReclaimInactive(minFree, limits)
    {
      if inactive == [] || activeSize + inactiveSize + minFree <= limits.maxCache {
        return;
      }
      ghost var start := View();
      while inactive != []
        invariant start.Evict(minFree, limits) == View().Evict(minFree, limits)
        decreases |inactive|
      {
        var item := inactive[0];
        ghost var before := View();
        inactive := inactive[1..];
        inactiveSize := inactiveSize - item.value.size;
        entries := entries - {item.key};
        assert View() == before.EvictOne();
        if activeSize + inactiveSize + minFree <= limits.maxCache {
          break;
        }
      }
      assert View() == start.Evict(minFree, limits);
    }

    method Get(key: int) returns (r: Option<Value>)
      modifies this
      ensures View() == old(View()).Get(key)
      ensures r == if key in entries then Some(entries[key]) else None
    {
      if key !in entries {
        return None;
      }
      active := Promote(active, key);
      inactive := Promote(inactive, key);
      return Some(entries[key]);
    }

    /** The pairs with keys in the range, in ascending order. */
    method Search(low: int, high: int) returns (r: seq<(int, Value)>)
      requires low <= high
      modifies this
      ensures View() == old(View()).Search(low, high)
      ensures forall i, j :: 0 <= i < j < |r| ==> r[i].0 < r[j].0
      ensures forall i :: 0 <= i < |r| ==> low <= r[i].0 < high && r[i].0 in entries && r[i].1 == entries[r[i].0]
      ensures forall k :: low <= k < high && k in entries ==> exists i :: 0 <= i < |r| && r[i].0 == k
    {
      hide Promote;
      r := [];
      var key := low;
      while key < high
        invariant low <= key <= high
        invariant entries == old(entries) && View() == old(View()).Search(low, key)
        invariant forall i, j :: 0 <= i < j < |r| ==> r[i].0 < r[j].0
        invariant forall i :: 0 <= i < |r| ==> low <= r[i].0 < key && r[i].0 in entries && r[i].1 == entries[r[i].0]
        invariant forall k :: low <= k < key && k in entries ==> exists i :: 0 <= i < |r| && r[i].0 == k
      {
        ghost var before := r;
        if key in entries {
          active := Promote(active, key);
          inactive := Promote(inactive, key);
          r := r + [(key, entries[key])];
          assert r[|before|].0 == key;
        }
        assert forall i :: 0 <= i < |before| ==> r[i] == before[i];
        key := key + 1;
      }
    }
  }

  // ---- What every operation keeps ---------------------------------------------------

  /** The map keys are the disjoint union of the two lists, and each counter is the sum of its list. */
  ghost predicate Sound(s: CacheState) {
    && Distinct(s.active) && Distinct(s.inactive)
    && KeySet(s.active) !! KeySet(s.inactive)
    && s.entries.Keys == KeySet(s.active) + KeySet(s.inactive)
    && s.activeSize == Sum(s.active) && s.inactiveSize == Sum(s.inactive)
  }

  /** No value changed and no key was added. */
  ghost predicate Fewer(t: map<int, Value>, s: map<int, Value>) {
    forall k :: k in t ==> k in s && t[k] == s[k]
  }

  lemma {:induction false} EvictOneSound(s: CacheState)
    requires Sound(s) && s.inactive != []
    ensures Sound(s.EvictOne()) && Fewer(s.EvictOne().entries, s.entries)
  {
    hide Sum;
    PopFirst(s.inactive);
    var t := s.EvictOne();
    assert t.entries.Keys == s.entries.Keys - {s.inactive[0].key};
  }

  lemma {:induction false} EvictSound(s: CacheState, minFree: nat, lim: Limits)
    requires Sound(s)
    ensures var t := s.Evict(minFree, lim);
            && Sound(t) && Fewer(t.entries, s.entries)
            && t.active == s.active && t.activeSize == s.activeSize
            && (t.inactive == [] || t.Size() + minFree <= lim.maxCache)
    decreases |s.inactive|
  {
    if s.inactive != [] {
      EvictOneSound(s);
      EvictSound(s.EvictOne(), minFree, lim);
    }
  }

  lemma {:induction false} ReclaimInactiveSound(s: CacheState, minFree: nat, lim: Limits)
    requires Sound(s)
    ensures var t := s.ReclaimInactive(minFree, lim);
            && Sound(t) && Fewer(t.entries, s.entries)
            && t.active == s.active && t.activeSize == s.activeSize
            && (t.inactiveSize == 0 || t.Size() + minFree <= lim.maxCache)
  {
    EvictSound(s, minFree, lim);
  }

  lemma {:induction false} DemoteOneSound(s: CacheState)
    requires Sound(s) && s.active != []
    ensures Sound(s.DemoteOne())
  {
    hide Sum;
    PopFirst(s.active);
    PutLast(s.inactive, s.active[0]);
  }

  lemma {:induction false} DemoteSound(s: CacheState, minFree: nat, lim: Limits)
    requires Sound(s)
    ensures var t := s.Demote(minFree, lim);
            && Sound(t) && t.entries == s.entries && s.inactiveSize <= t.inactiveSize
            && (t.active == [] || t.activeSize + minFree <= lim.maxActive)
    decreases |s.active|
  {
    if s.active != [] {
      DemoteOneSound(s);
      DemoteSound(s.DemoteOne(), minFree, lim);
    }
  }

  /** Each list stays within its limit or holds no more than the largest value. */
  ghost predicate Within(s: CacheState, lim: Limits, most: nat) {
    && s.activeSize <= Max(lim.maxActive, most)
    && s.inactiveSize <= Max(lim.maxCache, most)
  }

  lemma {:induction false} ReclaimActiveSound(s: CacheState, minFree: nat, lim: Limits, most: nat)
    requires Sound(s) && Within(s, lim, most)
    ensures var t := s.ReclaimActive(minFree, lim);
            && Sound(t) && Fewer(t.entries, s.entries) && Within(t, lim, most)
            && (t.activeSize == 0 || t.activeSize + minFree <= lim.maxActive)
  {
    if s.active != [] && s.activeSize + minFree > lim.maxActive {
      DemoteSound(s, minFree, lim);
      var t := s.Demote(minFree, lim);
      ReclaimInactiveSound(t, t.inactiveSize - s.inactiveSize, lim);
    }
  }

  lemma {:induction false} PushActiveSound(s: CacheState, key: int, value: Value, lim: Limits, most: nat)
    requires Sound(s) && Within(s, lim, most) && value.size <= most
    ensures var t := s.PushActive(key, value, lim);
            && Sound(t) && Within(t, lim, most)
            && key in t.entries && t.entries[key] == value && Fewer(t.entries - {key}, s.entries)
  {
    hide Sum;
    if s.Cached(key) {
      assert s.entries[key := value].Keys == s.entries.Keys;
    } else {
      ReclaimActiveSound(s, value.size, lim, most);
      var t := s.ReclaimActive(value.size, lim);
      assert key !in t.entries;
      PutLast(t.active, Item(key, value));
      assert t.entries[key := value].Keys == t.entries.Keys + {key};
    }
  }

  lemma {:induction false} PushInactiveSound(s: CacheState, key: int, value: Value, lim: Limits, most: nat)
    requires Sound(s) && Within(s, lim, most) && value.size <= most
    ensures var t := s.PushInactive(key, value, lim);
            && Sound(t) && Within(t, lim, most)
            && key in t.entries && t.entries[key] == value && Fewer(t.entries - {key}, s.entries)
  {
    hide Sum;
    if s.Cached(key) {
      assert s.entries[key := value].Keys == s.entries.Keys;
    } else {
      ReclaimInactiveSound(s, value.size, lim);
      var t := s.ReclaimInactive(value.size, lim);
      assert key !in t.entries;
      PutLast(t.inactive, Item(key, value));
      assert t.entries[key := value].Keys == t.entries.Keys + {key};
    }
  }

  lemma {:induction false} GetSound(s: CacheState, key: int)
    requires Sound(s)
    ensures var t := s.Get(key);
            Sound(t) && t.entries == s.entries && t.activeSize == s.activeSize && t.inactiveSize == s.inactiveSize
  {
    hide Promote, Sum;
    PromoteKeeps(s.active, key);
    PromoteKeeps(s.inactive, key);
  }

  /** Apart from the key, two lists hold the same items in the same order. */
  function Others(l: seq<Item>, key: int): seq<Item> {
    if l == [] then []
    else Others(l[..|l| - 1], key) + if l[|l| - 1].key == key then [] else [l[|l| - 1]]
  }

  lemma {:induction false} OthersConcat(a: seq<Item>, b: seq<Item>, key: int)
    ensures Others(a + b, key) == Others(a, key) + Others(b, key)
    decreases |b|
  {
    if b == [] {
      assert a + b == a;
    } else {
      OthersConcat(a, b[..|b| - 1], key);
      assert (a + b)[..|a + b| - 1] == a + b[..|b| - 1];
    }
  }

  /** Taking the key out of the middle and putting it last leaves the others as they were. */
  lemma {:induction false} OthersMoved(a: seq<Item>, it: Item, b: seq<Item>)
    ensures Others(a + b + [it], it.key) == Others(a + [it] + b, it.key)
  {
    hide Others;
    OthersOnly(it);
    OthersConcat(a + b, [it], it.key);
    OthersConcat(a, b, it.key);
    OthersConcat(a + [it], b, it.key);
    OthersConcat(a, [it], it.key);
  }

  lemma {:induction false} OthersOnly(it: Item)
    ensures Others([it], it.key) == []
  {
  }

  lemma {:induction false} PromoteRefreshes(l: seq<Item>, key: int)
    ensures Others(Promote(l, key), key) == Others(l, key)
    ensures key in KeySet(l) ==> Promote(l, key) != [] && Promote(l, key)[|Promote(l, key)| - 1].key == key
  {
    hide Others, KeySet;
    var i := Find(l, key);
    if i < |l| {
      OthersMoved(l[..i], l[i], l[i + 1..]);
      assert l == l[..i] + [l[i]] + l[i + 1..];
    }
  }

  /** A looked-up key becomes the most recently used of its list and nothing else moves. */
  lemma {:induction false} GetRefreshes(s: CacheState, key: int)
    requires Sound(s) && key in s.entries
    ensures var t := s.Get(key);
            && t.entries == s.entries && t.activeSize == s.activeSize && t.inactiveSize == s.inactiveSize
            && Others(t.active, key) == Others(s.active, key) && Others(t.inactive, key) == Others(s.inactive, key)
            && (key in KeySet(s.active) ==> t.active != [] && t.active[|t.active| - 1].key == key)
            && (key in KeySet(s.inactive) ==> t.inactive != [] && t.inactive[|t.inactive| - 1].key == key)
            && s.Cached(key)
  {
    hide Others, Promote;
    PromoteRefreshes(s.active, key);
    PromoteRefreshes(s.inactive, key);
  }

  lemma {:induction false} SearchSound(s: CacheState, low: int, high: int)
    requires Sound(s)
    ensures var t := s.Search(low, high);
            Sound(t) && t.entries == s.entries && t.activeSize == s.activeSize && t.inactiveSize == s.inactiveSize
    decreases high - low
  {
    if low < high {
      SearchSound(s, low, high - 1);
      GetSound(s.Search(low, high - 1), high - 1);
    }
  }

  /** Dropping the first `n` items leaves enough room. */
  predicate RoomAfter(l: seq<Item>, n: nat, size: int, minFree: nat, limit: nat)
    requires n <= |l|
  {
    size - Sum(l[..n]) + minFree <= limit
  }

  /** `n` is the least positive number of items to take that leaves room, or all of them. */
  ghost predicate LeastTake(l: seq<Item>, n: nat, size: int, minFree: nat, limit: nat) {
    && 1 <= n <= |l|
    && (n < |l| ==> RoomAfter(l, n, size, minFree, limit))
    && forall m :: 1 <= m < n ==> !RoomAfter(l, m, size, minFree, limit)
  }

  lemma {:induction false} TakeOneMore(l: seq<Item>, n: nat, size: int, minFree: nat, limit: nat)
    requires |l| >= 2 && !RoomAfter(l, 1, size, minFree, limit)
    requires LeastTake(l[1..], n, size - l[0].value.size, minFree, limit)
    ensures LeastTake(l, n + 1, size, minFree, limit)
  {
    forall m | 1 <= m <= n
      ensures Sum(l[..m + 1]) == l[0].value.size + Sum(l[1..][..m])
    {
      assert l[..m + 1][1..] == l[1..][..m];
    }
    forall m | 1 <= m < n + 1
      ensures !RoomAfter(l, m, size, minFree, limit)
    {
      if m > 1 {
        assert !RoomAfter(l[1..], m - 1, size - l[0].value.size, minFree, limit);
      }
    }
  }

  lemma {:induction false} FirstOnly(l: seq<Item>)
    requires l != []
    ensures Sum(l[..1]) == l[0].value.size
  {
    assert l[..1] == [l[0]];
  }

  /** Eviction drops the least recently used items, and no more of them than needed. */
  lemma {:induction false} EvictTakesLeast(s: CacheState, minFree: nat, lim: Limits) returns (n: nat)
    requires s.inactive != []
    ensures LeastTake(s.inactive, n, s.Size(), minFree, lim.maxCache)
    ensures var t := s.Evict(minFree, lim);
            t.inactive == s.inactive[n..] && t.entries == s.entries - KeySet(s.inactive[..n])
    decreases |s.inactive|
  {
    var l, t := s.inactive, s.EvictOne();
    FirstOnly(l);
    if |l| == 1 || t.Size() + minFree <= lim.maxCache {
      n := 1;
      assert KeySet(l[..1]) == {l[0].key};
      assert t.Evict(minFree, lim) == t || |l| > 1;
    } else {
      var m := EvictTakesLeast(t, minFree, lim);
      n := m + 1;
      TakeOneMore(l, m, s.Size(), minFree, lim.maxCache);
      assert l[1..][m..] == l[n..];
      KeysOfMore(l, m);
    }
  }

  lemma {:induction false} KeysOfMore(l: seq<Item>, m: nat)
    requires m < |l|
    ensures KeySet(l[..m + 1]) == {l[0].key} + KeySet(l[1..][..m])
  {
    var a, b := l[..m + 1], l[1..][..m];
    assert a[0] == l[0] && forall i :: 0 <= i < m ==> b[i] == a[i + 1];
    forall k | k in KeySet(a) && k != l[0].key
      ensures k in KeySet(b)
    {
      var i :| 0 <= i < |a| && a[i].key == k;
      assert b[i - 1].key == k;
    }
  }

  /** Demotion moves the least recently used active items, in order, and no more than needed. */
  lemma {:induction false} DemoteTakesLeast(s: CacheState, minFree: nat, lim: Limits) returns (n: nat)
    requires s.active != []
    ensures LeastTake(s.active, n, s.activeSize, minFree, lim.maxActive)
    ensures var t := s.Demote(minFree, lim);
            t.active == s.active[n..] && t.inactive == s.inactive + s.active[..n] && t.entries == s.entries
    decreases |s.active|
  {
    var l, t := s.active, s.DemoteOne();
    FirstOnly(l);
    if |l| == 1 || t.activeSize + minFree <= lim.maxActive {
      n := 1;
      assert [l[0]] == l[..1];
      assert t.Demote(minFree, lim) == t || |l| > 1;
    } else {
      var m := DemoteTakesLeast(t, minFree, lim);
      n := m + 1;
      TakeOneMore(l, m, s.activeSize, minFree, lim.maxActive);
      assert l[1..][m..] == l[n..];
      assert s.inactive + [l[0]] + l[1..][..m] == s.inactive + l[..n];
    }
  }

  /** What a reclaim of the inactive list drops: nothing if there is room, and otherwise the least number
      of items that makes room. */
  lemma {:induction false} ReclaimExact(s: CacheState, minFree: nat, lim: Limits) returns (n: nat)
    ensures var t := s.ReclaimInactive(minFree, lim);
            && n <= |s.inactive| && t.inactive == s.inactive[n..] && t.entries == s.entries - KeySet(s.inactive[..n])
            && t.active == s.active
            && if s.inactive == [] || s.Size() + minFree <= lim.maxCache then n == 0
               else LeastTake(s.inactive, n, s.Size(), minFree, lim.maxCache)
  {
    if s.inactive == [] || s.Size() + minFree <= lim.maxCache {
      n := 0;
      assert s.inactive[..0] == [] && s.entries - {} == s.entries;
    } else {
      n := EvictTakesLeast(s, minFree, lim);
      EvictKeepsActive(s, minFree, lim);
    }
  }

  lemma {:induction false} EvictKeepsActive(s: CacheState, minFree: nat, lim: Limits)
    ensures s.Evict(minFree, lim).active == s.active
    decreases |s.inactive|
  {
    if s.inactive != [] {
      EvictKeepsActive(s.EvictOne(), minFree, lim);
    }
  }

  /** A new inactive item is the most recently used of its list, and what had to go for it went. */
  lemma {:induction false} PushInactiveExact(s: CacheState, key: int, value: Value, lim: Limits) returns (n: nat)
    requires !s.Cached(key)
    ensures var t := s.PushInactive(key, value, lim);
            && n <= |s.inactive| && t.active == s.active && t.inactive == s.inactive[n..] + [Item(key, value)]
            && t.entries == (s.entries - KeySet(s.inactive[..n]))[key := value]
            && if s.inactive == [] || s.Size() + value.size <= lim.maxCache then n == 0
               else LeastTake(s.inactive, n, s.Size(), value.size, lim.maxCache)
  {
    n := ReclaimExact(s, value.size, lim);
  }

  /** A new active item is the most recently used of its list. With room in the active list nothing moves.
      Otherwise the least number of active items that makes room is demoted, and of the inactive ones as
      many are dropped as it takes to hold them. */
  lemma {:induction false} PushActiveExact(s: CacheState, key: int, value: Value, lim: Limits) returns (n: nat, e: nat)
    requires Sound(s) && !s.Cached(key)
    ensures var t := s.PushActive(key, value, lim);
            && n <= |s.active| && e <= |s.inactive| + n
            && var all := s.inactive + s.active[..n];
               && t.active == s.active[n..] + [Item(key, value)] && t.inactive == all[e..]
               && t.entries == (s.entries - KeySet(all[..e]))[key := value]
               && if s.active == [] || s.activeSize + value.size <= lim.maxActive then n == 0 && e == 0
                  else && LeastTake(s.active, n, s.activeSize, value.size, lim.maxActive)
                       && if s.Size() + Sum(s.active[..n]) <= lim.maxCache then e == 0
                          else LeastTake(all, e, s.Size(), Sum(s.active[..n]), lim.maxCache)
  {
    hide CacheState.Demote, CacheState.ReclaimInactive, LeastTake, KeySet, Sum, Sound;
    if s.active == [] || s.activeSize + value.size <= lim.maxActive {
      n, e := 0, 0;
      NoKeys();
      assert s.active[..0] == [] && s.inactive + [] == s.inactive && s.inactive[..0] == [] && s.entries - {} == s.entries;
    } else {
      n := DemoteTakesLeast(s, value.size, lim);
      var t := s.Demote(value.size, lim);
      DemotedSize(s, value.size, lim, n);
      e := ReclaimExact(t, Sum(s.active[..n]), lim);
    }
  }

  lemma {:induction false} NoKeys()
    ensures KeySet([]) == {}
  {
  }

  lemma {:induction false} DemotedSize(s: CacheState, minFree: nat, lim: Limits, n: nat)
    requires Sound(s) && n <= |s.active|
    requires s.Demote(minFree, lim).inactive == s.inactive + s.active[..n] && s.Demote(minFree, lim).active == s.active[n..]
    ensures var t := s.Demote(minFree, lim); t.inactiveSize == s.inactiveSize + Sum(s.active[..n]) && t.Size() == s.Size()
  {
    hide Sum;
    DemoteSound(s, minFree, lim);
    SumConcat(s.inactive, s.active[..n]);
    SumConcat(s.active[..n], s.active[n..]);
    assert s.active[..n] + s.active[n..] == s.active;
  }

  // ---- Runs -----------------------------------------------------------------------

  datatype Op = PushActive(key: int, value: Value) | PushInactive(key: int, value: Value)
              | Get(key: int) | Search(low: int, high: int)

  function Step(s: CacheState, op: Op, lim: Limits): CacheState {
    match op
    case PushActive(key, value) => s.PushActive(key, value, lim)
    case PushInactive(key, value) => s.PushInactive(key, value, lim)
    case Get(key) => s.Get(key)
    case Search(low, high) => s.Search(low, high)
  }

  function After(ops: seq<Op>, lim: Limits): CacheState {
    if ops == [] then CacheState(map[], [], 0, [], 0)
    else Step(After(ops[..|ops| - 1], lim), ops[|ops| - 1], lim)
  }

  /** The last value pushed for each key. */
  function LastPushed(ops: seq<Op>): map<int, Value> {
    if ops == [] then map[]
    else
      var before, op := LastPushed(ops[..|ops| - 1]), ops[|ops| - 1];
      if op.PushActive? || op.PushInactive? then before[op.key := op.value] else before
  }

  /** The size of the largest value pushed. */
  function LargestPushed(ops: seq<Op>): nat {
    if ops == [] then 0
    else
      var before, op := LargestPushed(ops[..|ops| - 1]), ops[|ops| - 1];
      if op.PushActive? || op.PushInactive? then Max(before, op.value.size) else before
  }

  lemma {:induction false} StepKeeps(s: CacheState, op: Op, lim: Limits, last: map<int, Value>, most: nat)
    requires Sound(s) && Within(s, lim, most) && Fewer(s.entries, last)
    requires op.PushActive? || op.PushInactive? ==> op.value.size <= most
    ensures var t := Step(s, op, lim);
            && Sound(t) && Within(t, lim, most)
            && Fewer(t.entries, if op.PushActive? || op.PushInactive? then last[op.key := op.value] else last)
  {
    hide CacheState.PushActive, CacheState.PushInactive, CacheState.Get, CacheState.Search, Sound;
    match op
    case PushActive(key, value) => PushActiveSound(s, key, value, lim, most);
    case PushInactive(key, value) => PushInactiveSound(s, key, value, lim, most);
    case Get(key) => GetSound(s, key);
    case Search(low, high) => SearchSound(s, low, high);
  }

  /** Over every run of pushes, lookups and searches: the map keys are the disjoint union of the two
      lists, each size counter is the sum of its list, the cache holds at most its two limits or the
      largest value instead of either, and a cached value is the last one pushed for its key. */
  lemma {:induction false} CacheRun(ops: seq<Op>, lim: Limits)
    ensures var s, most := After(ops, lim), LargestPushed(ops);
            && Sound(s) && Within(s, lim, most)
            && s.Size() <= Max(lim.maxActive, most) + Max(lim.maxCache, most)
            && Fewer(s.entries, LastPushed(ops))
    decreases |ops|
  {
    if ops != [] {
      CacheRun(ops[..|ops| - 1], lim);
      StepKeeps(After(ops[..|ops| - 1], lim), ops[|ops| - 1], lim, LastPushed(ops[..|ops| - 1]), LargestPushed(ops));
    }
  }
}
