/**
 Deletion safety, end to end: placement driver, object manager, progress channel and metadata
 manager as one system. Whatever the order in which the two feeds and the progress channel are
 delivered, a range event makes an offset deletable only if the offset was trimmed or lies
 inside an object that was committed.
 */
module DeletionSafety {
  import opened Prelude
  import opened ObjectChain
  import opened OffloadProgress
  import opened ResourceModel
  import opened ObjectManager
  import opened MetadataManager

  /** A range event, and the end of the range metadata that the manager held when it emitted it. */
  datatype Emission = Emission(event: RangeEvent, heldEnd: Option<nat>)

  /** `published` is everything the placement driver has ever handed out, `log` everything the manager
      has emitted. Once `aborted`, the process is gone. */
  datatype World = World(
    published: set<Resource>,
    objects: MetadataState,
    channel: seq<(RangeId, nat)>,
    manager: ManagerState,
    log: seq<Emission>,
    aborted: bool)

  datatype Step =
    | Publish(resource: Resource)
    | ObjectFeed(event: ResourceEvent)
    | Subscribe(keys: seq<RangeId>)
    | MetadataFeed(metadata: ResourceEvent)
    | DeliverProgress

  const INIT: World := World({}, MetadataState(map[], map[]), [], ManagerState(map[], false, [], []), [], false)

  predicate Known(published: set<Resource>, r: Resource) {
    r.NoResource? || r in published
  }

  function HeldIn(s: StreamState, index: nat): Option<nat> {
    if index in s.ranges then s.ranges[index].range.end else None
  }

  function HeldEnd(sm: StreamMap, range: RangeId): Option<nat> {
    if range.0 in sm then HeldIn(sm[range.0], range.1) else None
  }

  /** The events with the ends held in `sm`. */
  function Logged(sm: StreamMap, es: seq<RangeEvent>): (log: seq<Emission>)
    ensures |log| == |es|
  {
    seq(|es|, i requires 0 <= i < |es| => Emission(es[i], HeldEnd(sm, es[i].range)))
  }

  predicate Enabled(w: World, s: Step) {
    !w.aborted &&
    match s
    case Publish(r) => r.ObjectResource? ==> ObjectOk(r.obj)
    case ObjectFeed(ev) => Known(w.published, ev.resource)
    case Subscribe(keys) => forall k :: k in keys ==> k in w.objects.managed
    case MetadataFeed(ev) => Known(w.published, ev.resource)
    case DeliverProgress => w.channel != []
  }

  function Apply(serverId: int, w: World, s: Step): World
    requires Ok(w) && Enabled(w, s)
  {
    match s
    case Publish(r) => w.(published := w.published + {r})
    case ObjectFeed(ev) =>
      (match w.objects.OnEvent(serverId, ev)
       case Err(_) => w.(aborted := true)
       case Ok(res) => w.(objects := res.0, channel := w.channel + res.1.progress))
    case Subscribe(keys) =>
      (match w.objects.Snapshot(keys)
       case Err(_) => w.(aborted := true)
       case Ok(progress) => w.(channel := w.channel + progress))
    case MetadataFeed(ev) => Emit(w, w.manager.OnMetadata(serverId, ev), HandleEvent(serverId, ev, w.manager.streams).1)
    case DeliverProgress =>
      var (range, offset) := w.channel[0];
      Emit(w.(channel := w.channel[1..]), w.manager.OnEntry(range, offset), [HandleProgress(w.manager.streams, range, offset).1])
  }

  /** The manager has handled an input, emitting `es`. */
  function Emit(w: World, m: ManagerState, es: seq<RangeEvent>): World {
    w.(manager := m, log := w.log + Logged(m.streams, es))
  }

  /** What the object manager needs of its inputs: published objects the walk can handle. */
  predicate Ok(w: World) {
    && w.objects.Ok()
    && forall r :: r in w.published && r.ObjectResource? ==> ObjectOk(r.obj)
  }

  // ---- What may be deleted --------------------------------------------------------

  ghost predicate Committed(published: set<Resource>, range: RangeId, off: nat) {
    exists o :: ObjectResource(o) in published && (o.streamId, o.rangeIndex) == range
                && o.startOffset <= off < o.EndOffset()
  }

  ghost predicate Trimmed(published: set<Resource>, range: RangeId, off: nat) {
    || (exists s :: StreamResource(s) in published && s.streamId == range.0 && off < s.startOffset)
    || (exists r :: RangeResource(r) in published && (r.streamId, r.index) == range && off < r.start)
  }

  /** Every offset below `bound` is trimmed or lies in a committed object. */
  ghost predicate Below(published: set<Resource>, range: RangeId, bound: nat) {
    forall off :: 0 <= off < bound ==> Committed(published, range, off) || Trimmed(published, range, off)
  }

  /** What an event makes deletable: all below the start it moves to, or all below the end that was
      held for the range. */
  ghost predicate Safe(published: set<Resource>, m: Emission) {
    match m.event
    case OffsetMove(range, start) => Below(published, range, start)
    case Offloaded(range) => m.heldEnd.Some? && Below(published, range, m.heldEnd.value)
    case Del(_) => true
  }

  ghost predicate AllSafe(published: set<Resource>, log: seq<Emission>) {
    forall i :: 0 <= i < |log| ==> Safe(published, log[i])
  }

  ghost predicate InLog(e: RangeEvent, log: seq<Emission>) {
    exists i :: 0 <= i < |log| && log[i].event == e
  }

  ghost predicate AllInLog(es: seq<RangeEvent>, log: seq<Emission>) {
    forall i :: 0 <= i < |es| ==> InLog(es[i], log)
  }

  // ---- Invariants of the three components -----------------------------------------

  ghost predicate FromPublished(published: set<Resource>, key: RangeId, m: ManagedObjects) {
    && (exists r :: RangeResource(r) in published && (r.streamId, r.index) == key && r.start == m.startOffset)
    && forall k :: k in m.objects ==>
                     exists o :: ObjectResource(o) in published && (o.streamId, o.rangeIndex) == key
                                 && o.Key() == k && o.Value() == m.objects[k]
  }

  ghost predicate ObjectsInv(published: set<Resource>, s: MetadataState) {
    forall key :: key in s.managed ==> FromPublished(published, key, s.managed[key])
  }

  ghost predicate ChannelInv(published: set<Resource>, ch: seq<(RangeId, nat)>) {
    forall i :: 0 <= i < |ch| ==> Below(published, ch[i].0, ch[i].1)
  }

  ghost predicate StreamInv(published: set<Resource>, id: nat, s: StreamState) {
    && s.streamId == id
    && (s.metadata.Some? ==> StreamResource(s.metadata.value) in published && s.metadata.value.streamId == id)
    && (forall i :: i in s.offloaded ==> Below(published, (id, i), s.offloaded[i]))
    && (forall i :: i in s.ranges ==>
                      && RangeResource(s.ranges[i].range) in published
                      && (s.ranges[i].range.streamId, s.ranges[i].range.index) == (id, i))
  }

  ghost predicate StreamsInv(published: set<Resource>, sm: StreamMap) {
    forall id :: id in sm ==> StreamInv(published, id, sm[id])
  }

  ghost predicate Inv(w: World) {
    && Ok(w)
    && ObjectsInv(w.published, w.objects)
    && ChannelInv(w.published, w.channel)
    && StreamsInv(w.published, w.manager.streams)
    && AllSafe(w.published, w.log)
    && AllInLog(w.manager.buffered, w.log)
    && AllInLog(w.manager.sent, w.log)
  }

  // ---- Publishing more keeps everything -------------------------------------------

  lemma {:induction false} BelowGrows(p: set<Resource>, r: Resource, range: RangeId, bound: nat)
    requires Below(p, range, bound)
    ensures Below(p + {r}, range, bound)
  {
    forall off | 0 <= off < bound
      ensures Committed(p + {r}, range, off) || Trimmed(p + {r}, range, off)
    {
      if Committed(p, range, off) {
        var o :| ObjectResource(o) in p && (o.streamId, o.rangeIndex) == range && o.startOffset <= off < o.EndOffset();
        assert ObjectResource(o) in p + {r};
      } else if s :| StreamResource(s) in p && s.streamId == range.0 && off < s.startOffset {
        assert StreamResource(s) in p + {r};
      } else {
        var m :| RangeResource(m) in p && (m.streamId, m.index) == range && off < m.start;
        assert RangeResource(m) in p + {r};
      }
    }
  }

  lemma {:induction false} SafeGrows(p: set<Resource>, r: Resource, log: seq<Emission>)
    requires AllSafe(p, log)
    ensures AllSafe(p + {r}, log)
  {
    forall i | 0 <= i < |log|
      ensures Safe(p + {r}, log[i])
    {
      match log[i].event {
        case OffsetMove(range, start) => BelowGrows(p, r, range, start);
        case Offloaded(range) => BelowGrows(p, r, range, log[i].heldEnd.value);
        case Del(_) =>
      }
    }
  }

  lemma {:induction false} StreamsGrow(p: set<Resource>, r: Resource, sm: StreamMap)
    requires StreamsInv(p, sm)
    ensures StreamsInv(p + {r}, sm)
  {
    forall id | id in sm
      ensures StreamInv(p + {r}, id, sm[id])
    {
      forall i | i in sm[id].offloaded
        ensures Below(p + {r}, (id, i), sm[id].offloaded[i])
      {
        BelowGrows(p, r, (id, i), sm[id].offloaded[i]);
      }
    }
  }

  lemma {:induction false} ObjectsGrow(p: set<Resource>, r: Resource, s: MetadataState)
    requires ObjectsInv(p, s)
    ensures ObjectsInv(p + {r}, s)
  {
    forall key | key in s.managed
      ensures FromPublished(p + {r}, key, s.managed[key])
    {
      var m := s.managed[key];
      var range :| RangeResource(range) in p && (range.streamId, range.index) == key && range.start == m.startOffset;
      assert RangeResource(range) in p + {r};
      forall k | k in m.objects
        ensures exists o :: ObjectResource(o) in p + {r} && (o.streamId, o.rangeIndex) == key
                            && o.Key() == k && o.Value() == m.objects[k]
      {
        var o :| ObjectResource(o) in p && (o.streamId, o.rangeIndex) == key && o.Key() == k && o.Value() == m.objects[k];
        assert ObjectResource(o) in p + {r};
      }
    }
  }

  // ---- The object manager reports only what committed objects cover ----------------

  lemma {:induction false} OffsetIsBelow(p: set<Resource>, key: RangeId, m: ManagedObjects)
    requires FromPublished(p, key, m) && WellFormed(m.objects)
    ensures Below(p, key, WalkEnd(m.objects, m.startOffset))
  {
    forall off | 0 <= off < WalkEnd(m.objects, m.startOffset)
      ensures Committed(p, key, off) || Trimmed(p, key, off)
    {
      if m.startOffset <= off {
        OffloadedIsCovered(m.objects, m.startOffset, off);
        var k :| Covers(m.objects, k, off);
        var o :| ObjectResource(o) in p && (o.streamId, o.rangeIndex) == key && o.Key() == k && o.Value() == m.objects[k];
      }
    }
  }

  lemma {:induction false} AddObjectKeeps(p: set<Resource>, s: MetadataState, o: ObjectMetadata)
    requires ObjectsInv(p, s) && s.Ok() && ObjectOk(o) && ObjectResource(o) in p
    ensures var r := s.AddObject(o);
            r.Ok? ==> && ObjectsInv(p, r.value.0)
                      && (r.value.1.Some? ==> Below(p, (o.streamId, o.rangeIndex), r.value.1.value))
  {
    var key := (o.streamId, o.rangeIndex);
    if key in s.managed && s.AddObject(o).Ok? {
      var t := s.AddObject(o).value.0;
      var m := t.managed[key];
      forall k | k in m.objects
        ensures exists x :: ObjectResource(x) in p && (x.streamId, x.rangeIndex) == key
                            && x.Key() == k && x.Value() == m.objects[k]
      {
        if k == o.Key() {
          assert ObjectResource(o) in p;
        } else {
          assert m.objects[k] == s.managed[key].objects[k];
        }
      }
      assert FromPublished(p, key, m);
      OffsetIsBelow(p, key, m);
    }
  }

  lemma {:induction false} AddRangeKeeps(serverId: int, p: set<Resource>, s: MetadataState, r: RangeMetadata)
    requires ObjectsInv(p, s) && s.Ok() && RangeResource(r) in p
    ensures s.AddRange(serverId, r).Ok? ==> ObjectsInv(p, s.AddRange(serverId, r).value.0)
  {
    var key := (r.streamId, r.index);
    if s.AddRange(serverId, r).Ok? {
      var t := s.AddRange(serverId, r).value.0;
      if key in t.managed && r.HeldBy(serverId) && r.offloadOwner.Some? {
        assert t.managed[key].startOffset == r.start;
        assert key in s.managed ==> FromPublished(p, key, s.managed[key]);
        assert FromPublished(p, key, t.managed[key]);
      }
      assert forall k :: k in t.managed && k != key ==> t.managed[k] == s.managed[k];
    }
  }

  lemma {:induction false} ObjectFeedKeeps(serverId: int, p: set<Resource>, s: MetadataState, ev: ResourceEvent)
    requires ObjectsInv(p, s) && s.Ok() && Known(p, ev.resource)
    requires EventOk(ev)
    ensures var r := s.OnEvent(serverId, ev);
            r.Ok? ==> ObjectsInv(p, r.value.0) && ChannelInv(p, r.value.1.progress)
  {
    hide MetadataState.AddObject, MetadataState.AddRange, FromPublished, Below, WellFormed;
    match ev.resource {
      case ObjectResource(o) => AddObjectKeeps(p, s, o);
      case RangeResource(r) => AddRangeKeeps(serverId, p, s, r);
      case _ =>
    }
  }

  // ---- The metadata manager emits only safe events --------------------------------

  lemma {:induction false} StartIsBelow(p: set<Resource>, id: nat, s: StreamState, i: nat)
    requires StreamInv(p, id, s)
    ensures Below(p, (id, i), s.NewStartOffset(i))
  {
    forall off | 0 <= off < s.NewStartOffset(i)
      ensures Committed(p, (id, i), off) || Trimmed(p, (id, i), off)
    {
      if off < s.StreamStart() {
        assert StreamResource(s.metadata.value) in p;
      } else if off < s.RangeStart(i) {
        assert RangeResource(s.ranges[i].range) in p;
      } else {
        assert Below(p, (id, i), s.offloaded[i]);
      }
    }
  }

  /** An event for a range of this stream is safe for the end it was decided with, if the start it may
      carry is. */
  lemma {:induction false} EventIsSafe(p: set<Resource>, id: nat, s: StreamState, i: nat, end: Option<nat>, start: nat)
    requires StreamInv(p, id, s) && Below(p, (id, i), start)
    ensures Safe(p, Emission(s.Event(i, end, start), end)) && s.Event(i, end, start).range == (id, i)
  {
    if s.Event(i, end, start).Offloaded? {
      assert Below(p, (id, i), s.offloaded[i]);
    }
  }

  lemma {:induction false} AddIsSafe(p: set<Resource>, id: nat, s: StreamState, r: RangeMetadata)
    requires StreamInv(p, id, s) && RangeResource(r) in p && r.streamId == id
    ensures var (t, e) := s.Add(r);
            StreamInv(p, id, t) && e.range == (id, r.index) && Safe(p, Emission(e, HeldIn(t, r.index)))
  {
    var start := Max(s.NewStartOffset(r.index), r.start);
    StartIsBelow(p, id, s, r.index);
    forall off | 0 <= off < start
      ensures Committed(p, (id, r.index), off) || Trimmed(p, (id, r.index), off)
    {
      if off >= s.NewStartOffset(r.index) {
        assert off < r.start;
      }
    }
    EventIsSafe(p, id, s, r.index, r.end, start);
  }

  lemma {:induction false} OffloadedIsSafe(p: set<Resource>, id: nat, s: StreamState, i: nat, offset: nat)
    requires StreamInv(p, id, s) && Below(p, (id, i), offset)
    ensures var (t, e) := s.UpdateOffloaded(i, offset);
            StreamInv(p, id, t) && e.range == (id, i) && Safe(p, Emission(e, HeldIn(t, i)))
  {
    var t := s.(offloaded := s.offloaded[i := offset]);
    assert StreamInv(p, id, t);
    StartIsBelow(p, id, t, i);
    EventIsSafe(p, id, t, i, HeldIn(s, i), t.NewStartOffset(i));
  }

  /** Every event of a stream is safe for the end held in `s`. */
  ghost predicate SafeHeld(p: set<Resource>, id: nat, s: StreamState, es: seq<RangeEvent>) {
    forall i :: 0 <= i < |es| ==> es[i].range.0 == id && Safe(p, Emission(es[i], HeldIn(s, es[i].range.1)))
  }

  lemma {:induction false} UpdateIsSafe(p: set<Resource>, id: nat, s: StreamState, md: StreamMetadata, indexes: set<nat>)
    requires StreamInv(p, id, s) && StreamResource(md) in p && md.streamId == id && indexes <= s.ranges.Keys
    ensures SafeHeld(p, id, s, s.UpdateEvents(md, indexes))
    decreases |indexes|
  {
    if indexes != {} {
      var i := MinOf(indexes);
      var t := s.(metadata := Some(md));
      assert StreamInv(p, id, t);
      StartIsBelow(p, id, t, i);
      EventIsSafe(p, id, t, i, s.ranges[i].range.end, t.NewStartOffset(i));
      assert t.Event(i, s.ranges[i].range.end, t.NewStartOffset(i)) == s.Event(i, s.ranges[i].range.end, t.NewStartOffset(i));
      UpdateIsSafe(p, id, s, md, indexes - {i});
    }
  }

  lemma {:induction false} LoggedIsSafe(p: set<Resource>, id: nat, s: StreamState, sm: StreamMap, es: seq<RangeEvent>)
    requires SafeHeld(p, id, s, es) && id in sm && sm[id].ranges.Keys == s.ranges.Keys
    requires forall i :: i in s.ranges ==> sm[id].ranges[i].range == s.ranges[i].range
    ensures AllSafe(p, Logged(sm, es))
  {
    forall i | 0 <= i < |es|
      ensures Safe(p, Logged(sm, es)[i])
    {
      assert HeldIn(sm[id], es[i].range.1) == HeldIn(s, es[i].range.1);
    }
  }

  lemma {:induction false} StreamEventKeeps(serverId: int, p: set<Resource>, sm: StreamMap, ev: ResourceEvent)
    requires StreamsInv(p, sm) && ev.resource.StreamResource? && ev.resource in p
    ensures var (next, es) := HandleEvent(serverId, ev, sm);
            StreamsInv(p, next) && AllSafe(p, Logged(next, es))
  {
    var md := ev.resource.stream;
    if md.streamId in sm {
      var s := sm[md.streamId];
      UpdateIsSafe(p, md.streamId, s, md, s.ranges.Keys);
      assert StreamInv(p, md.streamId, s.UpdateStream(md));
      LoggedIsSafe(p, md.streamId, s, sm[md.streamId := s.UpdateStream(md)], s.UpdateEvents(md, s.ranges.Keys));
    } else {
      assert StreamInv(p, md.streamId, Fresh(md.streamId).(metadata := Some(md)));
    }
  }

  lemma {:induction false} RangeEventKeeps(serverId: int, p: set<Resource>, sm: StreamMap, ev: ResourceEvent)
    requires StreamsInv(p, sm) && ev.resource.RangeResource? && ev.resource in p
    ensures var (next, es) := HandleEvent(serverId, ev, sm);
            StreamsInv(p, next) && AllSafe(p, Logged(next, es))
  {
    var r := ev.resource.range;
    var s := StreamOf(sm, r.streamId);
    AddIsSafe(p, r.streamId, s, r);
    assert StreamInv(p, r.streamId, s.Remove(r).0);
  }

  lemma {:induction false} MetadataKeeps(serverId: int, p: set<Resource>, sm: StreamMap, ev: ResourceEvent)
    requires StreamsInv(p, sm) && Known(p, ev.resource)
    ensures var (next, es) := HandleEvent(serverId, ev, sm);
            StreamsInv(p, next) && AllSafe(p, Logged(next, es))
  {
    hide StreamsInv;
    match ev.resource {
      case StreamResource(_) => StreamEventKeeps(serverId, p, sm, ev);
      case RangeResource(_) => RangeEventKeeps(serverId, p, sm, ev);
      case _ =>
    }
  }

  lemma {:induction false} ProgressKeeps(p: set<Resource>, sm: StreamMap, range: RangeId, offset: nat)
    requires StreamsInv(p, sm) && Below(p, range, offset)
    ensures var (next, e) := HandleProgress(sm, range, offset);
            StreamsInv(p, next) && AllSafe(p, Logged(next, [e]))
  {
    OffloadedIsSafe(p, range.0, StreamOf(sm, range.0), range.1, offset);
  }

  // ---- The whole system -----------------------------------------------------------

  lemma {:induction false} PublishKeeps(serverId: int, w: World, r: Resource)
    requires Inv(w) && Enabled(w, Publish(r))
    ensures Inv(Apply(serverId, w, Publish(r)))
  {
    var p := w.published;
    ObjectsGrow(p, r, w.objects);
    StreamsGrow(p, r, w.manager.streams);
    SafeGrows(p, r, w.log);
    forall i | 0 <= i < |w.channel|
      ensures Below(p + {r}, w.channel[i].0, w.channel[i].1)
    {
      BelowGrows(p, r, w.channel[i].0, w.channel[i].1);
    }
  }

  lemma {:induction false} InLogGrows(es: seq<RangeEvent>, log: seq<Emission>, more: seq<Emission>)
    requires AllInLog(es, log)
    ensures AllInLog(es, log + more)
  {
    forall i | 0 <= i < |es|
      ensures InLog(es[i], log + more)
    {
      var j :| 0 <= j < |log| && log[j].event == es[i];
      assert (log + more)[j].event == es[i];
    }
  }

  lemma {:induction false} InOwnLog(sm: StreamMap, log: seq<Emission>, es: seq<RangeEvent>)
    ensures AllInLog(es, log + Logged(sm, es))
  {
    forall i | 0 <= i < |es|
      ensures InLog(es[i], log + Logged(sm, es))
    {
      assert (log + Logged(sm, es))[|log| + i].event == es[i];
    }
  }

  /** Safe emissions of the manager keep the invariant, whether they are sent or held back. */
  lemma {:induction false} EmitKeeps(w: World, m: ManagerState, es: seq<RangeEvent>)
    requires Inv(w) && StreamsInv(w.published, m.streams) && AllSafe(w.published, Logged(m.streams, es))
    requires m.sent + m.buffered == w.manager.sent + w.manager.buffered + es || m.sent + m.buffered == w.manager.sent + es + w.manager.buffered
    ensures Inv(Emit(w, m, es))
  {
    var log := w.log + Logged(m.streams, es);
    InLogGrows(w.manager.sent, w.log, Logged(m.streams, es));
    InLogGrows(w.manager.buffered, w.log, Logged(m.streams, es));
    InOwnLog(m.streams, w.log, es);
    var all := m.sent + m.buffered;
    assert AllInLog(all, log);
    forall i | 0 <= i < |m.sent|
      ensures InLog(m.sent[i], log)
    {
      assert all[i] == m.sent[i];
    }
    forall i | 0 <= i < |m.buffered|
      ensures InLog(m.buffered[i], log)
    {
      assert all[|m.sent| + i] == m.buffered[i];
    }
  }

  lemma {:induction false} FeedKeeps(serverId: int, w: World, ev: ResourceEvent)
    requires Inv(w) && Enabled(w, MetadataFeed(ev))
    ensures Inv(Apply(serverId, w, MetadataFeed(ev)))
  {
    hide HandleEvent, Inv;
    assert StreamsInv(w.published, w.manager.streams) by { InvHas(w); }
    MetadataKeeps(serverId, w.published, w.manager.streams, ev);
    var es := HandleEvent(serverId, ev, w.manager.streams).1;
    var m := w.manager.OnMetadata(serverId, ev);
    if w.manager.listDone && ev.eventType != ListFinished {
      assert m.sent + m.buffered == w.manager.sent + es + w.manager.buffered;
    } else {
      assert m.sent + m.buffered == w.manager.sent + w.manager.buffered + es;
    }
    EmitKeeps(w, m, es);
  }

  lemma {:induction false} InvHas(w: World)
    requires Inv(w)
    ensures StreamsInv(w.published, w.manager.streams)
  {
  }

  lemma {:induction false} DeliveryKeeps(serverId: int, w: World)
    requires Inv(w) && Enabled(w, DeliverProgress)
    ensures Inv(Apply(serverId, w, DeliverProgress))
  {
    var (range, offset) := w.channel[0];
    var rest := w.(channel := w.channel[1..]);
    assert Inv(rest);
    ProgressKeeps(w.published, w.manager.streams, range, offset);
    hide HandleProgress, Inv;
    var e := HandleProgress(w.manager.streams, range, offset).1;
    EmitKeeps(rest, w.manager.OnEntry(range, offset), [e]);
  }

  lemma {:induction false} SnapshotIsBelow(p: set<Resource>, s: MetadataState, keys: seq<RangeId>)
    requires ObjectsInv(p, s) && s.Ok() && forall k :: k in keys ==> k in s.managed
    ensures s.Snapshot(keys).Ok? ==> ChannelInv(p, s.Snapshot(keys).value)
    decreases |keys|
  {
    hide Below, FromPublished, WellFormed;
    if keys != [] {
      var key := keys[|keys| - 1];
      SnapshotIsBelow(p, s, keys[..|keys| - 1]);
      OffsetIsBelow(p, key, s.managed[key]);
    }
  }

  lemma {:induction false} SubscribeKeeps(serverId: int, w: World, keys: seq<RangeId>)
    requires Inv(w) && Enabled(w, Subscribe(keys))
    ensures Inv(Apply(serverId, w, Subscribe(keys)))
  {
    hide Below, StreamsInv, AllSafe, AllInLog, ObjectsInv, MetadataState.Ok, MetadataState.Snapshot;
    SnapshotIsBelow(w.published, w.objects, keys);
  }

  lemma {:induction false} StepKeeps(serverId: int, w: World, s: Step)
    requires Inv(w) && Enabled(w, s)
    ensures Inv(Apply(serverId, w, s))
  {
    match s {
      case Publish(r) => PublishKeeps(serverId, w, r);
      case ObjectFeed(ev) => ObjectFeedKeeps(serverId, w.published, w.objects, ev);
      case Subscribe(keys) => SubscribeKeeps(serverId, w, keys);
      case MetadataFeed(ev) => FeedKeeps(serverId, w, ev);
      case DeliverProgress => DeliveryKeeps(serverId, w);
    }
  }

  ghost predicate IsRun(serverId: int, w: World, steps: seq<Step>, end: World)
    decreases |steps|
  {
    if steps == [] then w == end
    else Ok(w) && Enabled(w, steps[0]) && IsRun(serverId, Apply(serverId, w, steps[0]), steps[1..], end)
  }

  lemma {:induction false} RunKeeps(serverId: int, w: World, steps: seq<Step>, end: World)
    requires Inv(w) && IsRun(serverId, w, steps, end)
    ensures Inv(end)
    decreases |steps|
  {
    if steps != [] {
      StepKeeps(serverId, w, steps[0]);
      RunKeeps(serverId, Apply(serverId, w, steps[0]), steps[1..], end);
    }
  }

  /** In every run, each event that was sent to the store was emitted with every offset it makes
      deletable trimmed or inside a committed object: below the start it moves to, or below the end
      of the range metadata the manager held at that moment. */
  lemma {:induction false} DeletionIsSafe(serverId: int, steps: seq<Step>, end: World, e: RangeEvent) returns (m: Emission)
    requires IsRun(serverId, INIT, steps, end) && e in end.manager.sent
    ensures m in end.log && m.event == e && Safe(end.published, m)
  {
    RunKeeps(serverId, INIT, steps, end);
    var i :| 0 <= i < |end.manager.sent| && end.manager.sent[i] == e;
    assert InLog(end.manager.sent[i], end.log);
    var j :| 0 <= j < |end.log| && end.log[j].event == e;
    m := end.log[j];
  }

  // ---- The system is its components ----------------------------------------------------

  /** What the object manager sends in a step. */
  function Produced(serverId: int, w: World, s: Step): seq<(RangeId, nat)>
    requires Ok(w) && Enabled(w, s)
  {
    match s
    case ObjectFeed(ev) => if w.objects.OnEvent(serverId, ev).Ok? then w.objects.OnEvent(serverId, ev).value.1.progress else []
    case Subscribe(keys) => if w.objects.Snapshot(keys).Ok? then w.objects.Snapshot(keys).value else []
    case _ => []
  }

  /** What the metadata manager takes in a step. */
  function Taken(w: World, s: Step): seq<Input>
    requires Enabled(w, s)
  {
    match s
    case MetadataFeed(ev) => [Meta(ev)]
    case DeliverProgress => [Progress(w.channel[0].0, w.channel[0].1)]
    case _ => []
  }

  function ProgressOf(inputs: seq<Input>): seq<(RangeId, nat)> {
    if inputs == [] then []
    else (if inputs[0].Progress? then [(inputs[0].range, inputs[0].offset)] else []) + ProgressOf(inputs[1..])
  }

  ghost function AllProduced(serverId: int, w: World, steps: seq<Step>, end: World): seq<(RangeId, nat)>
    requires IsRun(serverId, w, steps, end)
    decreases |steps|
  {
    if steps == [] then [] else Produced(serverId, w, steps[0]) + AllProduced(serverId, Apply(serverId, w, steps[0]), steps[1..], end)
  }

  ghost function AllTaken(serverId: int, w: World, steps: seq<Step>, end: World): seq<Input>
    requires IsRun(serverId, w, steps, end)
    decreases |steps|
  {
    if steps == [] then [] else Taken(w, steps[0]) + AllTaken(serverId, Apply(serverId, w, steps[0]), steps[1..], end)
  }

  lemma {:induction false} ProgressConcat(a: seq<Input>, b: seq<Input>)
    ensures ProgressOf(a + b) == ProgressOf(a) + ProgressOf(b)
    decreases |a|
  {
    if a == [] {
      assert a + b == b;
    } else {
      ProgressConcat(a[1..], b);
      assert (a + b)[1..] == a[1..] + b;
    }
  }

  lemma {:induction false} OneStep(serverId: int, w: World, s: Step)
    requires Ok(w) && Enabled(w, s)
    ensures var w' := Apply(serverId, w, s);
            && ProgressOf(Taken(w, s)) + w'.channel == w.channel + Produced(serverId, w, s)
            && w'.manager == Listen(serverId, w.manager, Taken(w, s))
            && (s.ObjectFeed? && w.objects.OnEvent(serverId, s.event).Ok? ==> w'.objects == w.objects.OnEvent(serverId, s.event).value.0)
            && (!s.ObjectFeed? ==> w'.objects == w.objects)
            && (w'.aborted <==> || (s.ObjectFeed? && w.objects.OnEvent(serverId, s.event).Err?)
                                || (s.Subscribe? && w.objects.Snapshot(s.keys).Err?))
  {
    hide HandleEvent, HandleProgress, MetadataState.OnEvent, MetadataState.Snapshot, Ok;
    if s.DeliverProgress? {
      assert w.channel == [w.channel[0]] + w.channel[1..];
    }
  }

  lemma {:induction false} ListenConcat(serverId: int, m: ManagerState, a: seq<Input>, b: seq<Input>)
    ensures Listen(serverId, m, a + b) == Listen(serverId, Listen(serverId, m, a), b)
    decreases |a|
  {
    if a == [] {
      assert a + b == b;
    } else {
      assert (a + b)[1..] == a[1..] + b;
      ListenConcat(serverId, OnInput(serverId, m, a[0]), a[1..], b);
    }
  }

  /** In every run, the manager is what its inputs make of it, and the progress it was handed is what the
      object manager sent, in order, up to what is still in the channel. */
  lemma {:induction false} SystemFollows(serverId: int, w: World, steps: seq<Step>, end: World)
    requires IsRun(serverId, w, steps, end)
    ensures var inputs := AllTaken(serverId, w, steps, end);
            && end.manager == Listen(serverId, w.manager, inputs)
            && ProgressOf(inputs) + end.channel == w.channel + AllProduced(serverId, w, steps, end)
    decreases |steps|
  {
    hide Apply, Ok, Enabled, Taken, Produced;
    if steps == [] {
      assert [] + end.channel == w.channel + [];
    } else {
      var next := Apply(serverId, w, steps[0]);
      OneStep(serverId, w, steps[0]);
      SystemFollows(serverId, next, steps[1..], end);
      var a, b := Taken(w, steps[0]), AllTaken(serverId, next, steps[1..], end);
      var p, q := Produced(serverId, w, steps[0]), AllProduced(serverId, next, steps[1..], end);
      ListenConcat(serverId, w.manager, a, b);
      ProgressConcat(a, b);
      ConcatAssoc(ProgressOf(a), ProgressOf(b), end.channel);
      ConcatAssoc(ProgressOf(a), next.channel, q);
      ConcatAssoc(w.channel, p, q);
    }
  }
}
