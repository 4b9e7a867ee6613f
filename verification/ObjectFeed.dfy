/**
 What the object manager sends and returns, from the feed it has read: offload progress, ownership and
 the objects of a range (components/object-storage/src/object_manager.rs).
 */
module ObjectFeed {
  import opened Prelude
  import opened ObjectChain
  import opened OffloadProgress
  import opened ArrivedPieces
  import opened ResourceModel
  import opened ObjectManager

  predicate AllOk(evs: seq<ResourceEvent>) {
    forall i :: 0 <= i < |evs| ==> EventOk(evs[i])
  }

  // ---- The fields of a managed range --------------------------------------------------

  /** Event `i` is the last one that manages the range, and nothing was reset after it. */
  ghost predicate LastManages(serverId: int, evs: seq<ResourceEvent>, key: RangeId, i: nat) {
    && ManagedFrom(serverId, evs, key, i)
    && forall j :: i < j < |evs| ==> !Manages(serverId, evs[j], key)
  }

  /** The managed range is as that metadata says. */
  ghost predicate As(serverId: int, m: ManagedObjects, r: RangeMetadata) {
    && r.offloadOwner.Some? && m.startOffset == r.start
    && (m.owner <==> r.offloadOwner.value.serverId == serverId) && m.epoch == r.offloadOwner.value.epoch
  }

  lemma {:induction false} StepFields(serverId: int, s: MetadataState, ev: ResourceEvent, t: MetadataState, key: RangeId)
    requires s.Ok() && EventOk(ev) && s.OnEvent(serverId, ev).Ok? && s.OnEvent(serverId, ev).value.0 == t
    ensures Manages(serverId, ev, key) ==> key in t.managed && As(serverId, t.managed[key], ev.resource.range)
    ensures !Manages(serverId, ev, key) && ev.eventType != Reset && key in s.managed ==>
              key in t.managed && t.managed[key].(objects := s.managed[key].objects) == s.managed[key]
  {
    hide MetadataState.Offset, MetadataState.Ok, EventOk;
  }

  /** Range start, ownership and epoch are those of the last event that managed the range. */
  lemma {:induction false} FeedFields(serverId: int, evs: seq<ResourceEvent>, key: RangeId, i: nat, s: MetadataState)
    requires AllOk(evs) && FeedAll(serverId, evs) == Result.Ok(s) && LastManages(serverId, evs, key, i)
    ensures key in s.managed && As(serverId, s.managed[key], evs[i].resource.range)
    decreases |evs|
  {
    var front, last := evs[..|evs| - 1], evs[|evs| - 1];
    assert front + [last] == evs;
    var t := FeedSnoc(serverId, front, last, s);
    StepFields(serverId, t, last, s, key);
    if i < |front| {
      assert LastManages(serverId, front, key, i) && front[i] == evs[i];
      FeedFields(serverId, front, key, i, t);
    }
  }

  // ---- What is sent -------------------------------------------------------------------

  /** The walk over the objects of the range ends at `v`, without counting more than 32 bits of bytes. */
  ghost predicate ReachedBy(m: ManagedObjects, c: seq<ObjectKey>, v: nat) {
    && IsChain(m.objects, m.startOffset, U64_MAX, U32_MAX, c) && (forall i :: 0 <= i < |c| ==> c[i] in m.objects)
    && v == ChainEnd(m.objects, c, m.startOffset) && TailSize(m.objects, c) <= U32_MAX
  }

  ghost predicate Reaches(m: ManagedObjects, v: nat) {
    exists c :: ReachedBy(m, c, v)
  }

  lemma {:induction false} OffsetReaches(s: MetadataState, key: RangeId)
    requires s.Ok() && key in s.managed && s.Offset(key).Ok?
    ensures Reaches(s.managed[key], s.Offset(key).value)
  {
    var m := s.managed[key];
    var c := Chain(m.objects, m.startOffset, U64_MAX, U32_MAX);
    ChainIsChain(m.objects, m.startOffset, U64_MAX, U32_MAX);
    assert ReachedBy(m, c, s.Offset(key).value);
  }

  /** A new listener is told of each managed range how far the walk over it gets. */
  lemma {:induction false} SnapshotExactly(s: MetadataState, keys: seq<RangeId>)
    requires s.Ok() && (forall k :: k in keys ==> k in s.managed) && s.Snapshot(keys).Ok?
    ensures var told := s.Snapshot(keys).value;
            |told| == |keys| && forall i :: 0 <= i < |keys| ==> told[i].0 == keys[i] && Reaches(s.managed[keys[i]], told[i].1)
    decreases |keys|
  {
    hide Reaches, MetadataState.Offset;
    if keys != [] {
      SnapshotExactly(s, keys[..|keys| - 1]);
      OffsetReaches(s, keys[|keys| - 1]);
    }
  }

  /** The range of an object that is handed over. */
  function ObjectRange(ev: ResourceEvent): Option<RangeId> {
    if Adding(ev) && ev.resource.ObjectResource? then Some((ev.resource.obj.streamId, ev.resource.obj.rangeIndex)) else None
  }

  /** The range an event makes this server manage. */
  function ManagedRange(serverId: int, ev: ResourceEvent): Option<RangeId> {
    if Adding(ev) && ev.resource.RangeResource? && ev.resource.range.HeldBy(serverId) && ev.resource.range.offloadOwner.Some?
    then Some((ev.resource.range.streamId, ev.resource.range.index))
    else None
  }

  /** An object of a managed range makes the manager report how far the walk over the range now gets, and
      nothing else does. A range that is put under management makes it say whether this server is the
      owner, of which epoch, and how far the walk gets; nothing else does. */
  lemma {:induction false} SentExactly(serverId: int, s: MetadataState, ev: ResourceEvent, t: MetadataState, sent: Sent)
    requires s.Ok() && EventOk(ev) && s.OnEvent(serverId, ev) == Result.Ok((t, sent))
    ensures var key := ObjectRange(ev);
            if key.Some? && key.value in s.managed
            then |sent.progress| == 1 && sent.progress[0].0 == key.value && key.value in t.managed
                 && Reaches(t.managed[key.value], sent.progress[0].1)
            else sent.progress == []
    ensures var key := ManagedRange(serverId, ev);
            if key.Some?
            then |sent.owners| == 1 && sent.owners[0].range == key.value && key.value in t.managed
                 && OwnerTold(serverId, ev.resource.range.offloadOwner.value, t.managed[key.value], sent.owners[0].owner)
            else sent.owners == []
  {
    hide MetadataState.Offset, Reaches;
    if key: RangeId :| Some(key) == ObjectRange(ev) && key in s.managed {
      OffsetReaches(t, key);
    } else if key: RangeId :| Some(key) == ManagedRange(serverId, ev) && ev.resource.range.offloadOwner.value.serverId == serverId {
      OffsetReaches(t, key);
    }
  }

  ghost predicate OwnerTold(serverId: int, named: OffloadOwner, m: ManagedObjects, told: Option<Owner>) {
    && (told.Some? <==> named.serverId == serverId)
    && (told.Some? ==> told.value.epoch == named.epoch && Reaches(m, told.value.startOffset))
  }

  // ---- What was reached has been delivered ----------------------------------------------

  /** The object of event `j` covers the offset, and the range held it from then on. */
  ghost predicate CoveredFrom(serverId: int, evs: seq<ResourceEvent>, key: RangeId, k: ObjectKey, off: nat, i: nat, j: nat) {
    && HeldFrom(serverId, evs, key, k, i, j) && NoneLater(evs, key, k, j)
    && evs[j].resource.obj.startOffset <= off < evs[j].resource.obj.EndOffset()
  }

  lemma {:induction false} LastDelivery(serverId: int, evs: seq<ResourceEvent>, key: RangeId, k: ObjectKey, i: nat, j: nat) returns (n: nat)
    requires HeldFrom(serverId, evs, key, k, i, j)
    ensures HeldFrom(serverId, evs, key, k, i, n) && NoneLater(evs, key, k, n)
    decreases |evs| - j
  {
    if m :| j < m < |evs| && Delivers(evs[m], key, k) {
      n := LastDelivery(serverId, evs, key, k, i, m);
    } else {
      n := j;
    }
  }

  /** After any feed, every offset from the start of a managed range to where the walk ends lies in an
      object that was delivered for the range. */
  lemma {:induction false} ReachedIsDelivered(serverId: int, evs: seq<ResourceEvent>, key: RangeId, s: MetadataState, v: nat, off: nat)
    returns (k: ObjectKey, i: nat, j: nat)
    requires AllOk(evs) && FeedAll(serverId, evs) == Result.Ok(s) && key in s.managed && Reaches(s.managed[key], v)
    requires s.managed[key].startOffset <= off < v
    ensures CoveredFrom(serverId, evs, key, k, off, i, j)
  {
    var m := s.managed[key];
    var c :| ReachedBy(m, c, v);
    CoveredAlong(m.objects, m.startOffset, U64_MAX, U32_MAX, c, |c| - 1, off);
    k :| Covers(m.objects, k, off);
    FeedHolds(serverId, evs, key, k, s);
    var n: nat;
    i, n :| HeldFrom(serverId, evs, key, k, i, n);
    j := LastDelivery(serverId, evs, key, k, i, n);
  }

  // ---- What is returned was delivered ---------------------------------------------------

  ghost predicate Gave(evs: seq<ResourceEvent>, key: RangeId, objs: Objects) {
    forall k :: k in objs ==> exists j :: 0 <= j < |evs| && Adding(evs[j]) && evs[j].resource == ObjectResource(Named(key, objs, k))
  }

  ghost predicate AllGiven(evs: seq<ResourceEvent>, s: MetadataState) {
    && (forall key :: key in s.managed ==> Gave(evs, key, s.managed[key].objects))
    && (forall key :: key in s.other ==> Gave(evs, key, s.other[key]))
  }

  lemma {:induction false} GaveMore(evs: seq<ResourceEvent>, ev: ResourceEvent, key: RangeId, objs: Objects)
    requires Gave(evs, key, objs)
    ensures Gave(evs + [ev], key, objs)
    ensures ObjectRange(ev) == Some(key) ==> Gave(evs + [ev], key, objs[ev.resource.obj.Key() := ev.resource.obj.Value()])
  {
    var all := evs + [ev];
    assert all[|evs|] == ev;
    forall k | k in objs
      ensures exists j :: 0 <= j < |all| && Adding(all[j]) && all[j].resource == ObjectResource(Named(key, objs, k))
    {
      var j :| 0 <= j < |evs| && Adding(evs[j]) && evs[j].resource == ObjectResource(Named(key, objs, k));
      assert all[j] == evs[j];
    }
    if ObjectRange(ev) == Some(key) {
      var o := ev.resource.obj;
      var more := objs[o.Key() := o.Value()];
      assert Named(key, more, o.Key()) == o;
      assert forall k :: k in more && k != o.Key() ==> Named(key, more, k) == Named(key, objs, k);
    }
  }

  lemma {:induction false} StepGiven(serverId: int, evs: seq<ResourceEvent>, s: MetadataState, ev: ResourceEvent, t: MetadataState)
    requires s.Ok() && EventOk(ev) && s.OnEvent(serverId, ev).Ok? && s.OnEvent(serverId, ev).value.0 == t && AllGiven(evs, s)
    ensures AllGiven(evs + [ev], t)
  {
    hide MetadataState.Offset, MetadataState.Ok, EventOk, Gave;
    StillGiven(evs, ev, s);
    NoneGiven(evs + [ev]);
    if ObjectRange(ev).Some? {
      ObjectGiven(evs, s, ev, ObjectRange(ev).value);
    }
  }

  lemma {:induction false} StillGiven(evs: seq<ResourceEvent>, ev: ResourceEvent, s: MetadataState)
    requires AllGiven(evs, s)
    ensures AllGiven(evs + [ev], s)
  {
    hide Gave;
    forall key | key in s.managed
      ensures Gave(evs + [ev], key, s.managed[key].objects)
    {
      GaveMore(evs, ev, key, s.managed[key].objects);
    }
    forall key | key in s.other
      ensures Gave(evs + [ev], key, s.other[key])
    {
      GaveMore(evs, ev, key, s.other[key]);
    }
  }

  lemma {:induction false} ObjectGiven(evs: seq<ResourceEvent>, s: MetadataState, ev: ResourceEvent, key: RangeId)
    requires AllGiven(evs, s) && ObjectRange(ev) == Some(key)
    ensures var o := ev.resource.obj;
            && (key in s.managed ==> Gave(evs + [ev], key, s.managed[key].objects[o.Key() := o.Value()]))
            && Gave(evs + [ev], key, (if key in s.other then s.other[key] else map[])[o.Key() := o.Value()])
  {
    hide Gave;
    NoneGiven(evs);
    if key in s.managed {
      GaveMore(evs, ev, key, s.managed[key].objects);
    }
    GaveMore(evs, ev, key, if key in s.other then s.other[key] else map[]);
  }

  lemma {:induction false} NoneGiven(evs: seq<ResourceEvent>)
    ensures forall key :: Gave(evs, key, map[])
  {
  }

  lemma {:induction false} FeedGives(serverId: int, evs: seq<ResourceEvent>, s: MetadataState)
    requires AllOk(evs) && FeedAll(serverId, evs) == Result.Ok(s)
    ensures AllGiven(evs, s)
    decreases |evs|
  {
    if evs != [] {
      var front, last := evs[..|evs| - 1], evs[|evs| - 1];
      assert front + [last] == evs;
      hide AllGiven, FeedAll, MetadataState.OnEvent;
      var t := FeedSnoc(serverId, front, last, s);
      FeedGives(serverId, front, t);
      StepGiven(serverId, front, t, last, s);
    }
  }

  /** After any feed, an object that is returned for a range is, in every field, one that was delivered for
      that range. */
  lemma {:induction false} ReturnedWereDelivered(serverId: int, evs: seq<ResourceEvent>, key: RangeId, s: MetadataState, k: ObjectKey) returns (j: nat)
    requires AllOk(evs) && FeedAll(serverId, evs) == Result.Ok(s) && k in s.IndexOf(key)
    ensures j < |evs| && Adding(evs[j]) && evs[j].resource == ObjectResource(Named(key, s.IndexOf(key), k))
  {
    FeedGives(serverId, evs, s);
    assert Gave(evs, key, s.IndexOf(key));
    j :| 0 <= j < |evs| && Adding(evs[j]) && evs[j].resource == ObjectResource(Named(key, s.IndexOf(key), k));
  }

  // ---- A managed range along the rest of a feed -----------------------------------------

  /** Nothing is reset, and whoever manages the range names the same start. */
  predicate KeepsRange(serverId: int, evs: seq<ResourceEvent>, key: RangeId, start: nat) {
    forall j :: 0 <= j < |evs| ==> evs[j].eventType != Reset
                                   && (Manages(serverId, evs[j], key) ==> evs[j].resource.range.start == start)
  }

  /** The objects the feed delivers for the range, in order. */
  function DeliveredTo(evs: seq<ResourceEvent>, key: RangeId): seq<ObjectMetadata> {
    if evs == [] then []
    else DeliveredTo(evs[..|evs| - 1], key) + if ObjectRange(evs[|evs| - 1]) == Some(key) then [evs[|evs| - 1].resource.obj] else []
  }

  lemma {:induction false} InsertSnoc(objs: Objects, ms: seq<ObjectMetadata>, o: ObjectMetadata)
    ensures InsertAll(objs, ms + [o]) == InsertAll(objs, ms)[o.Key() := o.Value()]
    decreases |ms|
  {
    if ms == [] {
      assert [o][1..] == [];
    } else {
      assert (ms + [o])[1..] == ms[1..] + [o];
      InsertSnoc(objs[ms[0].Key() := ms[0].Value()], ms[1..], o);
    }
  }

  lemma {:induction false} StepGrows(serverId: int, s: MetadataState, ev: ResourceEvent, t: MetadataState, key: RangeId, start: nat)
    requires s.Ok() && EventOk(ev) && s.OnEvent(serverId, ev).Ok? && s.OnEvent(serverId, ev).value.0 == t
    requires key in s.managed && s.managed[key].startOffset == start && KeepsRange(serverId, [ev], key, start)
    ensures key in t.managed && t.managed[key].startOffset == start
    ensures t.managed[key].objects == if ObjectRange(ev) == Some(key) then s.managed[key].objects[ev.resource.obj.Key() := ev.resource.obj.Value()]
                                      else s.managed[key].objects
  {
    hide MetadataState.Offset, MetadataState.Ok, EventOk;
    assert [ev][0] == ev;
  }

  /** Behind `before`, the objects of a managed range are those it had and those the rest delivers. */
  lemma {:induction false} FeedGrows(serverId: int, before: seq<ResourceEvent>, after: seq<ResourceEvent>, key: RangeId, start: nat,
                                     s: MetadataState, t: MetadataState)
    requires AllOk(before) && FeedAll(serverId, before) == Result.Ok(s) && key in s.managed && s.managed[key].startOffset == start
    requires AllOk(before + after) && FeedAll(serverId, before + after) == Result.Ok(t) && KeepsRange(serverId, after, key, start)
    ensures key in t.managed && t.managed[key].startOffset == start
    ensures t.managed[key].objects == InsertAll(s.managed[key].objects, DeliveredTo(after, key))
    decreases |after|
  {
    hide FeedAll, MetadataState.OnEvent;
    if after == [] {
      assert before + after == before;
    } else {
      var front, last := after[..|after| - 1], after[|after| - 1];
      assert (before + front) + [last] == before + after;
      assert AllOk(before + front) && EventOk(last) by {
        assert forall i :: 0 <= i < |before + front| ==> (before + front)[i] == (before + after)[i];
        assert (before + after)[|before + front|] == last;
      }
      var u := FeedSnoc(serverId, before + front, last, t);
      FeedGrows(serverId, before, front, key, start, s, u);
      StepGrows(serverId, u, last, t, key, start);
      if ObjectRange(last) == Some(key) {
        InsertSnoc(s.managed[key].objects, DeliveredTo(front, key), last.resource.obj);
      } else {
        assert DeliveredTo(front, key) + [] == DeliveredTo(front, key);
      }
    }
  }
}
