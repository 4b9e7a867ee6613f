/**
 The metadata manager of a range server: it merges stream, range and offload-progress
 updates into one deletable offset per held range (range-server/src/metadata/manager.rs).
 */
module MetadataManager {
  import opened Prelude
  import opened ResourceModel

  datatype RangeEntry = RangeEntry(range: RangeMetadata, deletable: nat)

  /** The value of one `Stream`. */
  datatype StreamState = StreamState(
    streamId: nat,
    metadata: Option<StreamMetadata>,
    ranges: map<nat, RangeEntry>,
    offloaded: map<nat, nat>)
  {
    function StreamStart(): nat { if metadata.Some? then metadata.value.startOffset else 0 }

    function RangeStart(index: nat): nat { if index in ranges then ranges[index].range.start else 0 }

    function OffloadedOf(index: nat): nat { if index in offloaded then offloaded[index] else 0 }

    function NewStartOffset(index: nat): nat {
      Max(StreamStart(), Max(RangeStart(index), OffloadedOf(index)))
    }

    function Event(index: nat, end: Option<nat>, start: nat): RangeEvent {
      if index in offloaded && end.Some? && offloaded[index] >= end.value
      then Offloaded((streamId, index))
      else OffsetMove((streamId, index), start)
    }

    function Add(r: RangeMetadata): (StreamState, RangeEvent) {
      var start := Max(NewStartOffset(r.index), r.start);
      (this.(ranges := ranges[r.index := RangeEntry(r, start)]), Event(r.index, r.end, start))
    }

    function Remove(r: RangeMetadata): (StreamState, RangeEvent) {
      (this.(ranges := ranges - {r.index}, offloaded := offloaded - {r.index}), Del((r.streamId, r.index)))
    }

    function UpdateOffloaded(index: nat, offset: nat): (StreamState, RangeEvent) {
      var s := this.(offloaded := offloaded[index := offset]);
      var start := s.NewStartOffset(index);
      if index in ranges then
        (s.(ranges := ranges[index := ranges[index].(deletable := start)]), s.Event(index, ranges[index].range.end, start))
      else
        (s, s.Event(index, None, start))
    }

    /** The state after new stream metadata: every held range gets its offset again. */
    function UpdateStream(md: StreamMetadata): StreamState {
      this.(metadata := Some(md), ranges := map i | i in ranges :: Refreshed(md, i))
    }

    function Refreshed(md: StreamMetadata, i: nat): RangeEntry
      requires i in ranges
    {
      ranges[i].(deletable := this.(metadata := Some(md)).NewStartOffset(i))
    }

    /** The events of that update, in index order, for the ranges whose offset changed. */
    function UpdateEvents(md: StreamMetadata, indexes: set<nat>): (es: seq<RangeEvent>)
      requires indexes <= ranges.Keys
      decreases |indexes|
    {
      if indexes == {} then []
      else
        var i := MinOf(indexes);
        UpdateEvent(md, i) + UpdateEvents(md, indexes - {i})
    }

    function UpdateEvent(md: StreamMetadata, i: nat): seq<RangeEvent>
      requires i in ranges
    {
      var start := this.(metadata := Some(md)).NewStartOffset(i);
      if start != ranges[i].deletable then [Event(i, ranges[i].range.end, start)] else []
    }
  }

  function Fresh(id: nat): StreamState { StreamState(id, None, map[], map[]) }

  /** `Stream` with the fields the source updates in place. */
  class Stream {
    const streamId: nat
    var metadata: Option<StreamMetadata>
    var ranges: map<nat, RangeEntry>
    var offloaded: map<nat, nat>

    ghost function State(): StreamState
      reads this
    {
      StreamState(streamId, metadata, ranges, offloaded)
    }

    constructor (id: nat, md: Option<StreamMetadata>)
      ensures State() == Fresh(id).(metadata := md)
    {
      streamId, metadata, ranges, offloaded := id, md, map[], map[];
    }

    /** The least offset below none of the three sources: stream start, range start and progress. */
    method NewStartOffset(index: nat) returns (r: nat)
      ensures metadata.Some? ==> metadata.value.startOffset <= r
      ensures index in ranges ==> ranges[index].range.start <= r
      ensures index in offloaded ==> offloaded[index] <= r
      ensures || r == 0
              || (metadata.Some? && r == metadata.value.startOffset)
              || (index in ranges && r == ranges[index].range.start)
              || (index in offloaded && r == offloaded[index])
      ensures r == State().NewStartOffset(index)
    {
      var rangeStart := if index in ranges then ranges[index].range.start else 0;
      var offset := if index in offloaded then offloaded[index] else 0;
      var streamStart := if metadata.Some? then metadata.value.startOffset else 0;
      r := Max(streamStart, Max(rangeStart, offset));
    }

    /** Offloaded exactly when progress has reached a known end; otherwise the start moves. */
    method GenEvent(index: nat, end: Option<nat>, start: nat) returns (e: RangeEvent)
      ensures e.Offloaded? <==> index in offloaded && end.Some? && end.value <= offloaded[index]
      ensures !e.Del? && e.range == (streamId, index) && (e.OffsetMove? ==> e.startOffset == start)
      ensures e == State().Event(index, end, start)
    {
      if index in offloaded && end.Some? && offloaded[index] >= end.value {
        e := Offloaded((streamId, index));
      } else {
        e := OffsetMove((streamId, index), start);
      }
    }

    method Add(r: RangeMetadata) returns (e: RangeEvent)
      modifies this
      ensures (State(), e) == old(State()).Add(r)
    {
      var start := NewStartOffset(r.index);
      start := Max(start, r.start);
      ranges := ranges[r.index := RangeEntry(r, start)];
      e := GenEvent(r.index, r.end, start);
    }

    method Remove(r: RangeMetadata) returns (e: RangeEvent)
      modifies this
      ensures (State(), e) == old(State()).Remove(r)
    {
      e := Del((r.streamId, r.index));
      ranges := ranges - {r.index};
      offloaded := offloaded - {r.index};
    }

    method UpdateOffloaded(index: nat, offset: nat) returns (e: RangeEvent)
      modifies this
      ensures (State(), e) == old(State()).UpdateOffloaded(index, offset)
    {
      offloaded := offloaded[index := offset];
      var start := NewStartOffset(index);
      var end := None;
      if index in ranges {
        end := ranges[index].range.end;
        ranges := ranges[index := ranges[index].(deletable := start)];
      }
      e := GenEvent(index, end, start);
    }

    method UpdateStream(md: StreamMetadata) returns (events: seq<RangeEvent>)
      modifies this
      ensures State() == old(State()).UpdateStream(md)
      ensures events == old(State()).UpdateEvents(md, old(ranges).Keys)
    {
      hide StreamState.Refreshed, StreamState.UpdateEvent;
      ghost var was := State();
      metadata := Some(md);
      events := [];
      var todo := ranges.Keys;
      while todo != {}
        invariant metadata == Some(md) && offloaded == was.offloaded
        invariant todo <= ranges.Keys == was.ranges.Keys
        invariant forall i :: i in todo ==> ranges[i] == was.ranges[i]
        invariant forall i :: i in ranges && i !in todo ==> ranges[i] == was.Refreshed(md, i)
        invariant was.UpdateEvents(md, was.ranges.Keys) == events + was.UpdateEvents(md, todo)
        decreases |todo|
      {
        var i := MinOf(todo);
        var more := Refresh(i, was, md);
        assert was.UpdateEvents(md, todo) == more + was.UpdateEvents(md, todo - {i});
        events := events + more;
        todo := todo - {i};
      }
      assert ranges == was.UpdateStream(md).ranges;
    }

    /** One pass of the loop of `update_stream`. */
    method Refresh(i: nat, ghost was: StreamState, ghost md: StreamMetadata) returns (events: seq<RangeEvent>)
      requires i in ranges && i in was.ranges && ranges[i] == was.ranges[i]
      requires metadata == Some(md) && offloaded == was.offloaded && streamId == was.streamId
      modifies this`ranges
      ensures ranges == old(ranges)[i := was.Refreshed(md, i)]
      ensures events == was.UpdateEvent(md, i)
    {
      var start := NewStartOffset(i);
      events := [];
      if start != ranges[i].deletable {
        var e := GenEvent(i, ranges[i].range.end, start);
        ranges := ranges[i := ranges[i].(deletable := start)];
        events := [e];
      }
    }
  }

  // ---- The stream map and its two inputs ------------------------------------------

  type StreamMap = map<nat, StreamState>

  function StreamOf(sm: StreamMap, id: nat): StreamState { if id in sm then sm[id] else Fresh(id) }

  /** `handle_event`: the new stream map and the range events it gives rise to. */
  function HandleEvent(serverId: int, ev: ResourceEvent, sm: StreamMap): (StreamMap, seq<RangeEvent>) {
    match ev.resource
    case StreamResource(md) =>
      (match ev.eventType
       case Listed | Added | Modified =>
         if md.streamId in sm then
           var s := sm[md.streamId];
           (sm[md.streamId := s.UpdateStream(md)], s.UpdateEvents(md, s.ranges.Keys))
         else
           (sm[md.streamId := Fresh(md.streamId).(metadata := Some(md))], [])
       case Deleted =>
         if md.streamId in sm then (sm - {md.streamId}, DestroyEvents(sm[md.streamId], sm[md.streamId].ranges.Keys))
         else (sm, [])
       case _ => (sm, []))
    case RangeResource(r) =>
      if !r.HeldBy(serverId) then (sm, [])
      else
        var s := StreamOf(sm, r.streamId);
        (match ev.eventType
         case Listed | Added | Modified => (sm[r.streamId := s.Add(r).0], [s.Add(r).1])
         case Deleted => (sm[r.streamId := s.Remove(r).0], [s.Remove(r).1])
         case _ => (sm[r.streamId := s], []))
    case _ => (sm, [])
  }

  /** `gen_destroy_events`, in index order. */
  function DestroyEvents(s: StreamState, indexes: set<nat>): (es: seq<RangeEvent>)
    requires indexes <= s.ranges.Keys
    ensures forall i :: 0 <= i < |es| ==> es[i].Del?
    decreases |indexes|
  {
    if indexes == {} then []
    else
      var i := MinOf(indexes);
      [Del((s.ranges[i].range.streamId, s.ranges[i].range.index))] + DestroyEvents(s, indexes - {i})
  }

  /** One step of `listen_object_events` for one entry of a progress message. */
  function HandleProgress(sm: StreamMap, range: RangeId, offset: nat): (StreamMap, RangeEvent) {
    var (s, e) := StreamOf(sm, range.0).UpdateOffloaded(range.1, offset);
    (sm[range.0 := s], e)
  }

  /** The manager: the stream map, and what its listeners have been sent. Range events are held
      back until the first listing has finished. */
  datatype ManagerState = ManagerState(streams: StreamMap, listDone: bool, buffered: seq<RangeEvent>, sent: seq<RangeEvent>) {

    function OnMetadata(serverId: int, ev: ResourceEvent): ManagerState {
      var m := if ev.eventType == ListFinished
               then this.(listDone := true, buffered := [], sent := sent + buffered)
               else this;
      var (streams', events) := HandleEvent(serverId, ev, streams);
      if m.listDone then m.(streams := streams', sent := m.sent + events)
      else m.(streams := streams', buffered := m.buffered + events)
    }

    function OnEntry(range: RangeId, offset: nat): ManagerState {
      var (streams', e) := HandleProgress(streams, range, offset);
      this.(streams := streams', sent := sent + [e])
    }

    function OnProgress(batch: seq<(RangeId, nat)>): ManagerState
      decreases |batch|
    {
      if batch == [] then this else OnEntry(batch[0].0, batch[0].1).OnProgress(batch[1..])
    }
  }

  class DefaultMetadataManager {
    const serverId: int
    var streams: StreamMap
    var listDone: bool
    var buffered: seq<RangeEvent>
    var sent: seq<RangeEvent>

    ghost function State(): ManagerState
      reads this
    {
      ManagerState(streams, listDone, buffered, sent)
    }

    constructor (id: int)
      ensures serverId == id && State() == ManagerState(map[], false, [], [])
    {
      serverId, streams, listDone, buffered, sent := id, map[], false, [], [];
    }

    /** One turn of the loop in `listen_metadata_events`. */
    method OnMetadata(ev: ResourceEvent)
      modifies this
      ensures State() == old(State()).OnMetadata(serverId, ev)
    {
      if ev.eventType == ListFinished {
        listDone := true;
        sent := sent + buffered;
        buffered := [];
      }
      var (streams', events) := HandleEvent(serverId, ev, streams);
      streams := streams';
      if !listDone {
        buffered := buffered + events;
      } else {
        sent := sent + events;
      }
    }

    /** One turn of the loop in `listen_object_events`. */
    method OnProgress(batch: seq<(RangeId, nat)>)
      modifies this
      ensures State() == old(State()).OnProgress(batch)
    {
      var i := 0;
      while i < |batch|
        invariant 0 <= i <= |batch|
        invariant State().OnProgress(batch[i..]) == old(State()).OnProgress(batch)
      {
        var (streams', e) := HandleProgress(streams, batch[i].0, batch[i].1);
        assert batch[i..][1..] == batch[i + 1..];
        streams := streams';
        sent := sent + [e];
        i := i + 1;
      }
    }
  }

  // ---- The stored offset is the maximum of its three sources ----------------------

  /** Every stored deletable offset is max(stream start, range start, offloaded offset). */
  ghost predicate Exact(s: StreamState) {
    forall i :: i in s.ranges ==> s.ranges[i].deletable == s.NewStartOffset(i)
  }

  ghost predicate AllExact(sm: StreamMap) {
    forall id :: id in sm ==> Exact(sm[id]) && sm[id].streamId == id
  }

  /** Adding a range keeps the stored offset exact if and only if the start it replaces does not
      exceed all three sources of the new offset. */
  lemma {:induction false} AddExactIff(s: StreamState, r: RangeMetadata)
    requires Exact(s)
    ensures Exact(s.Add(r).0) <==> s.RangeStart(r.index) <= Max(s.StreamStart(), Max(r.start, s.OffloadedOf(r.index)))
  {
    var t := s.Add(r).0;
    forall i | i in t.ranges && i != r.index
      ensures t.ranges[i].deletable == t.NewStartOffset(i)
    {
      assert s.ranges[i].deletable == s.NewStartOffset(i);
    }
    assert t.NewStartOffset(r.index) == Max(s.StreamStart(), Max(r.start, s.OffloadedOf(r.index)));
  }

  /** A held range whose start moves back is the failing family: after both events the stored offset
      is still the old start. */
  lemma {:induction false} AddBackwardsNotExact(before: RangeMetadata, r: RangeMetadata, sm: StreamMap, next: StreamMap)
    requires before == RangeMetadata(1, 7, 0, 50, None, [5], 1, 1, None) && r == before.TrimStart(10)
    requires sm == HandleEvent(5, ResourceEvent(Added, RangeResource(before)), map[]).0
    requires next == HandleEvent(5, ResourceEvent(Modified, RangeResource(r)), sm).0
    ensures AllExact(sm) && !AllExact(next)
    ensures 1 in next && 7 in next[1].ranges && next[1].ranges[7] == RangeEntry(r, 50) && next[1].NewStartOffset(7) == 10
  {
    assert sm[1].ranges[7] == RangeEntry(before, 50);
    AddExactIff(sm[1], r);
  }

  /** Removing a range leaves no trace of what was received for it. */
  lemma {:induction false} RemoveForgets(s: StreamState, r: RangeMetadata, gone: RangeMetadata, offset: nat)
    requires r.index == gone.index
    ensures s.Add(r).0.Remove(gone) == s.Remove(gone)
    ensures s.UpdateOffloaded(r.index, offset).0.Remove(gone) == s.Remove(gone)
    ensures s.Remove(gone).0.RangeStart(r.index) == s.Remove(gone).0.OffloadedOf(r.index) == 0
    ensures s.Remove(gone).0.Add(r).0.ranges[r.index].deletable == Max(s.StreamStart(), r.start)
  {
    var i := r.index;
    assert s.ranges[i := s.Add(r).0.ranges[i]] - {i} == s.ranges - {i};
    assert s.offloaded[i := offset] - {i} == s.offloaded - {i};
    var u := s.UpdateOffloaded(i, offset).0;
    assert u.ranges - {i} == s.ranges - {i};
  }

  lemma {:induction false} OffloadedExact(s: StreamState, index: nat, offset: nat)
    requires Exact(s)
    ensures Exact(s.UpdateOffloaded(index, offset).0)
  {
    var t := s.UpdateOffloaded(index, offset).0;
    forall i | i in t.ranges
      ensures t.ranges[i].deletable == t.NewStartOffset(i)
    {
      if i != index {
        assert s.ranges[i].deletable == s.NewStartOffset(i);
      }
    }
  }

  /** The event leaves ranges in place and never announces a start below the one it replaces. */
  predicate Forward(serverId: int, ev: ResourceEvent, sm: StreamMap) {
    && ev.eventType != Deleted
    && (ev.resource.RangeResource? && ev.resource.range.HeldBy(serverId)
        && ev.eventType in {Listed, Added, Modified} ==>
          StreamOf(sm, ev.resource.range.streamId).RangeStart(ev.resource.range.index) <= ev.resource.range.start)
  }

  lemma {:induction false} EventExact(serverId: int, ev: ResourceEvent, sm: StreamMap)
    requires AllExact(sm) && Forward(serverId, ev, sm)
    ensures AllExact(HandleEvent(serverId, ev, sm).0)
  {
    if ev.resource.RangeResource? && ev.resource.range.HeldBy(serverId) {
      AddExactIff(StreamOf(sm, ev.resource.range.streamId), ev.resource.range);
    }
  }

  lemma {:induction false} ProgressExact(sm: StreamMap, range: RangeId, offset: nat)
    requires AllExact(sm)
    ensures AllExact(HandleProgress(sm, range, offset).0)
  {
    OffloadedExact(StreamOf(sm, range.0), range.1, offset);
  }

  // ---- Order of the two channels does not matter ----------------------------------

  datatype Input = Meta(event: ResourceEvent) | Progress(range: RangeId, offset: nat)

  function Step(serverId: int, sm: StreamMap, input: Input): StreamMap {
    match input
    case Meta(ev) => HandleEvent(serverId, ev, sm).0
    case Progress(range, offset) => HandleProgress(sm, range, offset).0
  }

  function Run(serverId: int, sm: StreamMap, inputs: seq<Input>): StreamMap
    decreases |inputs|
  {
    if inputs == [] then sm else Run(serverId, Step(serverId, sm, inputs[0]), inputs[1..])
  }

  /** Range starts never move back and nothing is deleted, along a run of metadata events. */
  predicate ForwardRun(serverId: int, sm: StreamMap, events: seq<ResourceEvent>)
    decreases |events|
  {
    events == [] || (Forward(serverId, events[0], sm)
                     && ForwardRun(serverId, HandleEvent(serverId, events[0], sm).0, events[1..]))
  }

  ghost predicate IsMerge(w: seq<Input>, metas: seq<ResourceEvent>, progs: seq<(RangeId, nat)>)
    decreases |w|
  {
    if w == [] then metas == [] && progs == []
    else match w[0]
      case Meta(ev) => metas != [] && metas[0] == ev && IsMerge(w[1..], metas[1..], progs)
      case Progress(range, offset) => progs != [] && progs[0] == (range, offset) && IsMerge(w[1..], metas, progs[1..])
  }

  /** What was received: a stream state without its stored offsets. */
  datatype Received = Received(streamId: nat, metadata: Option<StreamMetadata>,
                               ranges: map<nat, RangeMetadata>, offloaded: map<nat, nat>)

  ghost function ReceivedBy(s: StreamState): Received {
    Received(s.streamId, s.metadata, map i | i in s.ranges :: s.ranges[i].range, s.offloaded)
  }

  lemma {:induction false} AddReceived(s: StreamState, r: RangeMetadata)
    ensures ReceivedBy(s.Add(r).0) == ReceivedBy(s).(ranges := ReceivedBy(s).ranges[r.index := r])
  {
  }

  lemma {:induction false} OffloadedReceived(s: StreamState, index: nat, offset: nat)
    ensures ReceivedBy(s.UpdateOffloaded(index, offset).0)
         == ReceivedBy(s).(offloaded := s.offloaded[index := offset])
  {
    assert ReceivedBy(s.UpdateOffloaded(index, offset).0).ranges == ReceivedBy(s).ranges;
  }

  lemma {:induction false} UpdateReceived(s: StreamState, md: StreamMetadata)
    ensures ReceivedBy(s.UpdateStream(md)) == ReceivedBy(s).(metadata := Some(md))
  {
    assert ReceivedBy(s.UpdateStream(md)).ranges == ReceivedBy(s).ranges;
  }

  /** Exact states are determined by what was received. */
  lemma {:induction false} ExactDetermined(s: StreamState, t: StreamState)
    requires Exact(s) && Exact(t) && ReceivedBy(s) == ReceivedBy(t)
    ensures s == t
  {
    var received := ReceivedBy(s);
    assert s.ranges.Keys == received.ranges.Keys == t.ranges.Keys;
    forall i | i in s.ranges
      ensures s.ranges[i] == t.ranges[i]
    {
      assert s.ranges[i].range == received.ranges[i] == t.ranges[i].range;
      assert s.NewStartOffset(i) == t.NewStartOffset(i);
    }
    assert s.ranges == t.ranges;
  }

  lemma {:induction false} AddThenOffloadedExact(s: StreamState, r: RangeMetadata, index: nat, offset: nat)
    requires Exact(s) && s.RangeStart(r.index) <= r.start
    ensures Exact(s.Add(r).0.UpdateOffloaded(index, offset).0)
    ensures Exact(s.UpdateOffloaded(index, offset).0.Add(r).0)
  {
    AddExactIff(s, r);
    OffloadedExact(s.Add(r).0, index, offset);
    OffloadedExact(s, index, offset);
    AddExactIff(s.UpdateOffloaded(index, offset).0, r);
  }

  lemma {:induction false} AddCommutes(s: StreamState, r: RangeMetadata, index: nat, offset: nat)
    requires Exact(s) && s.RangeStart(r.index) <= r.start
    ensures s.Add(r).0.UpdateOffloaded(index, offset).0 == s.UpdateOffloaded(index, offset).0.Add(r).0
  {
    AddThenOffloadedExact(s, r, index, offset);
    AddReceived(s, r);
    OffloadedReceived(s.Add(r).0, index, offset);
    OffloadedReceived(s, index, offset);
    AddReceived(s.UpdateOffloaded(index, offset).0, r);
    ExactDetermined(s.Add(r).0.UpdateOffloaded(index, offset).0, s.UpdateOffloaded(index, offset).0.Add(r).0);
  }

  lemma {:induction false} UpdateCommutes(s: StreamState, md: StreamMetadata, index: nat, offset: nat)
    requires Exact(s)
    ensures s.UpdateStream(md).UpdateOffloaded(index, offset).0 == s.UpdateOffloaded(index, offset).0.UpdateStream(md)
  {
    OffloadedExact(s.UpdateStream(md), index, offset);
    UpdateReceived(s, md);
    OffloadedReceived(s.UpdateStream(md), index, offset);
    OffloadedReceived(s, index, offset);
    UpdateReceived(s.UpdateOffloaded(index, offset).0, md);
    ExactDetermined(s.UpdateStream(md).UpdateOffloaded(index, offset).0,
                    s.UpdateOffloaded(index, offset).0.UpdateStream(md));
  }

  /** The stream an event is about, if the manager looks at it. */
  function Target(serverId: int, ev: ResourceEvent): Option<nat> {
    match ev.resource
    case StreamResource(md) => if ev.eventType in {Listed, Added, Modified} then Some(md.streamId) else None
    case RangeResource(r) => if r.HeldBy(serverId) then Some(r.streamId) else None
    case _ => None
  }

  /** What an event other than a deletion does to that stream. */
  function Effect(ev: ResourceEvent, s: StreamState): StreamState {
    match ev.resource
    case StreamResource(md) => s.UpdateStream(md)
    case RangeResource(r) => if ev.eventType in {Listed, Added, Modified} then s.Add(r).0 else s
    case _ => s
  }

  lemma {:induction false} EventIsEffect(serverId: int, ev: ResourceEvent, sm: StreamMap)
    requires ev.eventType != Deleted
    ensures HandleEvent(serverId, ev, sm).0
         == match Target(serverId, ev)
            case None => sm
            case Some(id) => sm[id := Effect(ev, StreamOf(sm, id))]
  {
    if ev.resource.StreamResource? {
      var md := ev.resource.stream;
      assert Fresh(md.streamId).UpdateStream(md).ranges == map[];
    }
  }

  lemma {:induction false} EffectCommutes(ev: ResourceEvent, s: StreamState, index: nat, offset: nat)
    requires Exact(s)
    requires ev.resource.RangeResource? && ev.eventType in {Listed, Added, Modified} ==>
               s.RangeStart(ev.resource.range.index) <= ev.resource.range.start
    ensures Effect(ev, s).UpdateOffloaded(index, offset).0 == Effect(ev, s.UpdateOffloaded(index, offset).0)
  {
    match ev.resource {
      case StreamResource(md) => UpdateCommutes(s, md, index, offset);
      case RangeResource(r) =>
        if ev.eventType in {Listed, Added, Modified} {
          AddCommutes(s, r, index, offset);
        }
      case _ =>
    }
  }

  lemma {:induction false} ProgressKeepsForward(serverId: int, sm: StreamMap, ev: ResourceEvent, range: RangeId, offset: nat)
    requires Forward(serverId, ev, sm)
    ensures Forward(serverId, ev, HandleProgress(sm, range, offset).0)
  {
    forall id, i
      ensures StreamOf(HandleProgress(sm, range, offset).0, id).RangeStart(i) == StreamOf(sm, id).RangeStart(i)
    {
    }
  }

  lemma {:induction false} Commute(serverId: int, sm: StreamMap, ev: ResourceEvent, range: RangeId, offset: nat)
    requires AllExact(sm) && Forward(serverId, ev, sm)
    ensures HandleProgress(HandleEvent(serverId, ev, sm).0, range, offset).0
         == HandleEvent(serverId, ev, HandleProgress(sm, range, offset).0).0
  {
    hide Effect, StreamState.Add, StreamState.UpdateStream, StreamState.UpdateOffloaded, Exact;
    var moved := HandleProgress(sm, range, offset).0;
    EventIsEffect(serverId, ev, sm);
    EventIsEffect(serverId, ev, moved);
    var target := Target(serverId, ev);
    if target.Some? {
      if target.value == range.0 {
        EffectCommutes(ev, StreamOf(sm, range.0), range.1, offset);
      } else {
        assert StreamOf(moved, target.value) == StreamOf(sm, target.value);
      }
    }
  }

  /** A progress update can be moved past any run of metadata events. */
  lemma {:induction false} ProgressMovesPast(serverId: int, sm: StreamMap, metas: seq<ResourceEvent>, range: RangeId, offset: nat)
    requires AllExact(sm) && ForwardRun(serverId, sm, metas)
    ensures var moved := HandleProgress(sm, range, offset).0;
            && AllExact(moved) && ForwardRun(serverId, moved, metas)
            && RunMetas(serverId, moved, metas) == HandleProgress(RunMetas(serverId, sm, metas), range, offset).0
    decreases |metas|
  {
    ProgressExact(sm, range, offset);
    if metas != [] {
      Commute(serverId, sm, metas[0], range, offset);
      ProgressKeepsForward(serverId, sm, metas[0], range, offset);
      EventExact(serverId, metas[0], sm);
      ProgressMovesPast(serverId, HandleEvent(serverId, metas[0], sm).0, metas[1..], range, offset);
    }
  }

  function RunMetas(serverId: int, sm: StreamMap, metas: seq<ResourceEvent>): StreamMap
    decreases |metas|
  {
    if metas == [] then sm else RunMetas(serverId, HandleEvent(serverId, metas[0], sm).0, metas[1..])
  }

  function RunProgress(sm: StreamMap, progs: seq<(RangeId, nat)>): StreamMap
    decreases |progs|
  {
    if progs == [] then sm else RunProgress(HandleProgress(sm, progs[0].0, progs[0].1).0, progs[1..])
  }

  /** Every merge of the two channels ends in the state of the metadata first, then the progress,
      and in that state every stored offset is the maximum of its sources. */
  lemma {:induction false} MergeIndependent(serverId: int, sm: StreamMap, w: seq<Input>,
                                            metas: seq<ResourceEvent>, progs: seq<(RangeId, nat)>)
    requires AllExact(sm) && ForwardRun(serverId, sm, metas) && IsMerge(w, metas, progs)
    ensures Run(serverId, sm, w) == RunProgress(RunMetas(serverId, sm, metas), progs)
    ensures AllExact(Run(serverId, sm, w))
    decreases |w|
  {
    if w != [] {
      match w[0] {
        case Meta(ev) =>
          EventExact(serverId, ev, sm);
          MergeIndependent(serverId, HandleEvent(serverId, ev, sm).0, w[1..], metas[1..], progs);
        case Progress(range, offset) =>
          ProgressMovesPast(serverId, sm, metas, range, offset);
          MergeIndependent(serverId, HandleProgress(sm, range, offset).0, w[1..], metas, progs[1..]);
      }
    }
  }

  // ---- An Offloaded event is emitted whenever it is due ---------------------------

  ghost predicate Due(sm: StreamMap, id: nat, index: nat) {
    && id in sm && index in sm[id].ranges && index in sm[id].offloaded
    && sm[id].ranges[index].range.end.Some?
    && sm[id].offloaded[index] >= sm[id].ranges[index].range.end.value
  }

  ghost predicate Keyed(sm: StreamMap) {
    forall id :: id in sm ==> sm[id].streamId == id
  }

  ghost predicate Announced(sm: StreamMap, emitted: seq<RangeEvent>) {
    Keyed(sm) && forall id, index :: Due(sm, id, index) ==> Offloaded((id, index)) in emitted
  }

  function Emits(serverId: int, sm: StreamMap, input: Input): seq<RangeEvent> {
    match input
    case Meta(ev) => HandleEvent(serverId, ev, sm).1
    case Progress(range, offset) => [HandleProgress(sm, range, offset).1]
  }

  function Trace(serverId: int, sm: StreamMap, inputs: seq<Input>): seq<RangeEvent>
    decreases |inputs|
  {
    if inputs == [] then [] else Emits(serverId, sm, inputs[0]) + Trace(serverId, Step(serverId, sm, inputs[0]), inputs[1..])
  }

  /** One input, deletions included, keeps the announcement complete. */
  lemma {:induction false} AnnouncedStep(serverId: int, sm: StreamMap, input: Input, emitted: seq<RangeEvent>)
    requires Announced(sm, emitted)
    ensures Announced(Step(serverId, sm, input), emitted + Emits(serverId, sm, input))
  {
    hide StreamState.UpdateEvents, DestroyEvents, StreamState.NewStartOffset;
    var next := Step(serverId, sm, input);
    var all := emitted + Emits(serverId, sm, input);
    forall id, index | Due(next, id, index)
      ensures Offloaded((id, index)) in all
    {
      if !Due(sm, id, index) {
        assert Offloaded((id, index)) in Emits(serverId, sm, input);
      }
    }
  }

  /** Over every run, an Offloaded event has been emitted for each range whose end and whose
      progress up to that end are both known. */
  lemma {:induction false} OffloadedAnnounced(serverId: int, sm: StreamMap, inputs: seq<Input>, emitted: seq<RangeEvent>)
    requires Announced(sm, emitted)
    ensures Announced(Run(serverId, sm, inputs), emitted + Trace(serverId, sm, inputs))
    decreases |inputs|
  {
    if inputs == [] {
      assert emitted + [] == emitted;
    } else {
      AnnouncedStep(serverId, sm, inputs[0], emitted);
      var e := Emits(serverId, sm, inputs[0]);
      OffloadedAnnounced(serverId, Step(serverId, sm, inputs[0]), inputs[1..], emitted + e);
      var rest := Trace(serverId, Step(serverId, sm, inputs[0]), inputs[1..]);
      assert (emitted + e) + rest == emitted + (e + rest);
    }
  }

  // ---- Events are held back during the first listing, and none is lost --------------

  /** The manager takes one input of either channel. */
  function OnInput(serverId: int, m: ManagerState, input: Input): ManagerState {
    match input
    case Meta(ev) => m.OnMetadata(serverId, ev)
    case Progress(range, offset) => m.OnEntry(range, offset)
  }

  function Listen(serverId: int, m: ManagerState, inputs: seq<Input>): ManagerState
    decreases |inputs|
  {
    if inputs == [] then m else Listen(serverId, OnInput(serverId, m, inputs[0]), inputs[1..])
  }

  predicate FinishesListing(input: Input) { input.Meta? && input.event.eventType == ListFinished }

  predicate Finishes(inputs: seq<Input>) {
    exists i :: 0 <= i < |inputs| && FinishesListing(inputs[i])
  }

  /** Progress is listened to only once a listing has finished. */
  predicate ProgressAfterListing(listDone: bool, inputs: seq<Input>)
    decreases |inputs|
  {
    inputs == [] || (&& (inputs[0].Progress? ==> listDone)
                     && ProgressAfterListing(listDone || FinishesListing(inputs[0]), inputs[1..]))
  }

  lemma {:induction false} OneInput(serverId: int, m: ManagerState, input: Input)
    requires (m.listDone ==> m.buffered == []) && (input.Progress? ==> m.listDone)
    ensures var n := OnInput(serverId, m, input);
            && n.streams == Step(serverId, m.streams, input)
            && n.sent + n.buffered == (m.sent + m.buffered) + Emits(serverId, m.streams, input)
            && (n.listDone <==> m.listDone || FinishesListing(input))
            && (n.listDone ==> n.buffered == []) && (!n.listDone ==> n.sent == m.sent)
  {
    hide HandleEvent, HandleProgress;
  }

  /** Over every run of both channels, what was sent and what is held back together are the events of
      the run in order: everything is held back until a listing finishes, and nothing after. */
  lemma {:induction false} ListingHoldsBack(serverId: int, m: ManagerState, inputs: seq<Input>)
    requires (m.listDone ==> m.buffered == []) && ProgressAfterListing(m.listDone, inputs)
    ensures var n := Listen(serverId, m, inputs);
            && n.streams == Run(serverId, m.streams, inputs)
            && n.sent + n.buffered == (m.sent + m.buffered) + Trace(serverId, m.streams, inputs)
            && (n.listDone <==> m.listDone || Finishes(inputs))
            && (n.listDone ==> n.buffered == []) && (!n.listDone ==> n.sent == m.sent)
    decreases |inputs|
  {
    hide Emits, Step, OnInput, FinishesListing;
    if inputs == [] {
      assert (m.sent + m.buffered) + [] == m.sent + m.buffered;
    } else {
      var next := OnInput(serverId, m, inputs[0]);
      OneInput(serverId, m, inputs[0]);
      ListingHoldsBack(serverId, next, inputs[1..]);
      FinishesCons(inputs);
      ConcatAssoc(m.sent + m.buffered, Emits(serverId, m.streams, inputs[0]), Trace(serverId, next.streams, inputs[1..]));
    }
  }

  lemma {:induction false} FinishesCons(inputs: seq<Input>)
    requires inputs != []
    ensures Finishes(inputs) <==> FinishesListing(inputs[0]) || Finishes(inputs[1..])
  {
    if i :| 0 <= i < |inputs| && FinishesListing(inputs[i]) {
      assert i > 0 ==> inputs[1..][i - 1] == inputs[i];
    }
    if i :| 0 <= i < |inputs[1..]| && FinishesListing(inputs[1..][i]) {
      assert inputs[i + 1] == inputs[1..][i];
    }
  }
}
