/**
 The object manager of a range server: which objects exist for which range, and how far each
 held range is offloaded (components/object-storage/src/object_manager.rs).
 */
module ObjectManager {
  import opened Prelude
  import opened ObjectChain
  import opened OffloadProgress
  import opened ResourceModel

  datatype ManagedObjects = ManagedObjects(objects: Objects, owner: bool, epoch: nat, startOffset: nat)

  datatype Owner = Owner(startOffset: nat, epoch: nat)

  datatype OwnerEvent = OwnerEvent(range: RangeId, owner: Option<Owner>)

  /** What an event makes the manager send: to those who listen for progress, and to those who listen for
      changes of ownership. */
  datatype Sent = Sent(progress: seq<(RangeId, nat)>, owners: seq<OwnerEvent>)

  const NOTHING := Sent([], [])

  predicate ObjectOk(o: ObjectMetadata) {
    o.epoch < U16_MAX && o.endOffsetDelta > 0 && o.EndOffset() <= U64_MAX
  }

  /** Ranges held by this server, and the objects of all other ranges. */
  datatype MetadataState = MetadataState(managed: map<RangeId, ManagedObjects>, other: map<RangeId, Objects>) {

    predicate Ok() {
      && (forall key :: key in managed ==> WellFormed(managed[key].objects))
      && (forall key :: key in other ==> WellFormed(other[key]))
    }

    function Offset(key: RangeId): Result<nat, Abort>
      requires Ok() && key in managed
    {
      OffloadOffset(managed[key].objects, managed[key].startOffset)
    }

    /** `ManagedObjects::owner`: where this server has to go on uploading, if it is the owner. */
    function OwnerOf(key: RangeId): Result<Option<Owner>, Abort>
      requires Ok() && key in managed
    {
      if !managed[key].owner then Result.Ok(None)
      else match Offset(key)
        case Ok(offset) => Result.Ok(Some(Owner(offset, managed[key].epoch)))
        case Err(e) => Err(e)
    }

    /** `add_object`: the offload offset is reported for a held range only. */
    function AddObject(o: ObjectMetadata): (r: Result<(MetadataState, Option<nat>), Abort>)
      requires Ok() && ObjectOk(o)
      ensures r.Ok? ==> r.value.0.Ok()
    {
      var key := (o.streamId, o.rangeIndex);
      if key in managed then
        var objs := managed[key].objects[o.Key() := o.Value()];
        var s := this.(managed := managed[key := managed[key].(objects := objs)]);
        match s.Offset(key)
        case Ok(offset) => Result.Ok((s, Some(offset)))
        case Err(e) => Err(e)
      else
        var objs := if key in other then other[key] else map[];
        Result.Ok((this.(other := other[key := objs[o.Key() := o.Value()]]), None))
    }

    /** A listed or added range. A held range without an offload owner is skipped. */
    function AddRange(serverId: int, r: RangeMetadata): (res: Result<(MetadataState, Option<OwnerEvent>), Abort>)
      requires Ok()
      ensures res.Ok? ==> res.value.0.Ok()
    {
      var key := (r.streamId, r.index);
      if r.HeldBy(serverId) then
        if r.offloadOwner.Some? then
          var objs := if key in managed then managed[key].objects else map[];
          var m := ManagedObjects(objs, r.offloadOwner.value.serverId == serverId, r.offloadOwner.value.epoch, r.start);
          var s := this.(managed := managed[key := m]);
          match s.OwnerOf(key)
          case Ok(owner) => Result.Ok((s, Some(OwnerEvent(key, owner))))
          case Err(e) => Err(e)
        else
          Result.Ok((this, None))
      else
        Result.Ok((this.(other := other[key := if key in other then other[key] else map[]]), None))
    }

    /** One event of the feed, and what is sent. */
    function OnEvent(serverId: int, ev: ResourceEvent): (r: Result<(MetadataState, Sent), Abort>)
      requires Ok() && EventOk(ev)
      ensures r.Ok? ==> r.value.0.Ok()
    {
      match ev.eventType
      case Listed | Added =>
        (match ev.resource
         case RangeResource(range) =>
           (match AddRange(serverId, range)
            case Ok(res) => Result.Ok((res.0, Sent([], if res.1.Some? then [res.1.value] else [])))
            case Err(e) => Err(e))
         case ObjectResource(o) =>
           (match AddObject(o)
            case Ok(res) => Result.Ok((res.0, Sent(if res.1.Some? then [((o.streamId, o.rangeIndex), res.1.value)] else [], [])))
            case Err(e) => Err(e))
         case _ => Result.Ok((this, NOTHING)))
      case Reset => Result.Ok((MetadataState(map[], map[]), NOTHING))
      case _ => Result.Ok((this, NOTHING))
    }

    /** `watch_offload_progress`: what a new listener is sent, for the managed ranges in some order. */
    function Snapshot(keys: seq<RangeId>): (r: Result<seq<(RangeId, nat)>, Abort>)
      requires Ok() && forall k :: k in keys ==> k in managed
    {
      if keys == [] then Result.Ok([])
      else
        match Snapshot(keys[..|keys| - 1])
        case Err(e) => Err(e)
        case Ok(before) =>
          match Offset(keys[|keys| - 1])
          case Err(e) => Err(e)
          case Ok(offset) => Result.Ok(before + [(keys[|keys| - 1], offset)])
    }

    /** The index to read from: that of a held range first. */
    function IndexOf(key: RangeId): Objects {
      if key in managed then managed[key].objects else if key in other then other[key] else map[]
    }
  }

  predicate EventOk(ev: ResourceEvent) {
    ev.resource.ObjectResource? ==> ObjectOk(ev.resource.obj)
  }

  class Metadata {
    var managed: map<RangeId, ManagedObjects>
    var other: map<RangeId, Objects>

    ghost function State(): MetadataState
      reads this
    {
      MetadataState(managed, other)
    }

    constructor ()
      ensures State() == MetadataState(map[], map[])
    {
      managed, other := map[], map[];
    }

    /** `ManagedObjects::offload_offset`: the end of the last object of the walk, or the range start. */
    method OffloadOffsetOf(m: ManagedObjects) returns (offset: Result<nat, Abort>)
      requires WellFormed(m.objects)
      ensures offset == OffloadOffset(m.objects, m.startOffset)
    {
      var walk := GetContinuousObjects(m.objects, m.startOffset, None, None);
      if walk.Err? {
        return Err(Overflow);
      }
      var (objects, _) := walk.value;
      return Ok(if objects == [] then m.startOffset else objects[|objects| - 1].EndOffset());
    }

    method AddObject(o: ObjectMetadata) returns (r: Result<Option<nat>, Abort>)
      requires State().Ok() && ObjectOk(o)
      modifies this
      ensures r.Err? <==> old(State()).AddObject(o).Err?
      ensures r.Ok? ==> Result.Ok((State(), r.value)) == old(State()).AddObject(o) && State().Ok()
    {
      var key := (o.streamId, o.rangeIndex);
      if key in managed {
        var m := managed[key].(objects := managed[key].objects[o.Key() := o.Value()]);
        managed := managed[key := m];
        var reached := OffloadOffsetOf(m);
        if reached.Err? {
          return Err(reached.error);
        }
        return Ok(Some(reached.value));
      }
      var objs := if key in other then other[key] else map[];
      other := other[key := objs[o.Key() := o.Value()]];
      return Ok(None);
    }

    /** `ManagedObjects::owner`. */
    method OwnerOf(m: ManagedObjects) returns (r: Result<Option<Owner>, Abort>)
      requires WellFormed(m.objects)
      ensures r.Err? <==> m.owner && WalkOverflows(m.objects, m.startOffset)
      ensures r.Ok? ==> (r.value.Some? <==> m.owner)
      ensures r.Ok? && m.owner ==> r.value.value == Owner(WalkEnd(m.objects, m.startOffset), m.epoch)
    {
      if !m.owner {
        return Ok(None);
      }
      var reached := OffloadOffsetOf(m);
      if reached.Err? {
        return Err(reached.error);
      }
      return Ok(Some(Owner(reached.value, m.epoch)));
    }

    method AddRange(serverId: int, range: RangeMetadata) returns (r: Result<Option<OwnerEvent>, Abort>)
      requires State().Ok()
      modifies this
      ensures r.Err? <==> old(State()).AddRange(serverId, range).Err?
      ensures r.Ok? ==> Result.Ok((State(), r.value)) == old(State()).AddRange(serverId, range) && State().Ok()
    {
      var key := (range.streamId, range.index);
      if range.HeldBy(serverId) {
        if range.offloadOwner.Some? {
          var objs := if key in managed then managed[key].objects else map[];
          var owner := range.offloadOwner.value;
          var m := ManagedObjects(objs, owner.serverId == serverId, owner.epoch, range.start);
          managed := managed[key := m];
          var told := OwnerOf(m);
          if told.Err? {
            return Err(told.error);
          }
          return Ok(Some(OwnerEvent(key, told.value)));
        }
      } else {
        other := other[key := if key in other then other[key] else map[]];
      }
      return Ok(None);
    }

    method OnEvent(serverId: int, ev: ResourceEvent) returns (r: Result<Sent, Abort>)
      requires State().Ok() && EventOk(ev)
      modifies this
      ensures r.Err? <==> old(State()).OnEvent(serverId, ev).Err?
      ensures r.Ok? ==> Result.Ok((State(), r.value)) == old(State()).OnEvent(serverId, ev) && State().Ok()
    {
      match ev.eventType {
        case Listed | Added =>
          match ev.resource {
            case RangeResource(range) =>
              var added := AddRange(serverId, range);
              if added.Err? {
                return Err(added.error);
              }
              return Ok(Sent([], if added.value.Some? then [added.value.value] else []));
            case ObjectResource(o) =>
              var added := AddObject(o);
              if added.Err? {
                return Err(added.error);
              }
              return Ok(Sent(if added.value.Some? then [((o.streamId, o.rangeIndex), added.value.value)] else [], []));
            case _ =>
          }
        case Reset =>
          managed, other := map[], map[];
        case _ =>
      }
      return Ok(NOTHING);
    }

    /** `Metadata::get_objects`: the walk over what is held for the range, with its ids filled in. */
    method GetObjects(key: RangeId, startOffset: nat, endOffset: nat, sizeHint: u32)
      returns (r: Result<(seq<ObjectMetadata>, bool), Abort>)
      requires State().Ok()
      ensures var objs := State().IndexOf(key);
              var c := Chain(objs, startOffset, endOffset, sizeHint);
              && (r.Err? <==> TailSize(objs, c) > U32_MAX)
              && (r.Ok? ==> |r.value.0| == |c| && forall i :: 0 <= i < |c| ==> r.value.0[i] == Named(key, objs, c[i]))
              && (r.Ok? ==> (r.value.1 <==> (key in managed || key in other)
                                            && (ChainEnd(objs, c, startOffset) >= endOffset || TailSize(objs, c) >= sizeHint)))
    {
      var objs := if key in managed then managed[key].objects else if key in other then other[key] else map[];
      if key !in managed && key !in other {
        ChainCharacterised(objs, startOffset, endOffset, sizeHint, []);
        return Ok(([], false));
      }
      var walk := GetContinuousObjects(objs, startOffset, Some(endOffset), Some(sizeHint));
      if walk.Err? {
        return Err(walk.error);
      }
      var (objects, coverAll) := walk.value;
      for i := 0 to |objects|
        invariant |objects| == |walk.value.0|
        invariant forall j :: 0 <= j < |objects| ==>
                    objects[j] == if j < i then walk.value.0[j].(streamId := key.0, rangeIndex := key.1) else walk.value.0[j]
      {
        objects := objects[i := objects[i].(streamId := key.0, rangeIndex := key.1)];
      }
      return Ok((objects, coverAll));
    }
  }

  /** The metadata of a held object, with the range it belongs to. */
  function Named(key: RangeId, objs: Objects, k: ObjectKey): ObjectMetadata
    requires k in objs
  {
    ObjectMetadata(key.0, key.1, k.epoch, k.startOffset, objs[k].endOffsetDelta, objs[k].dataLen, objs[k].sparseIndex)
  }

  // ---- What the index holds after any feed ------------------------------------------

  predicate Adding(ev: ResourceEvent) { ev.eventType == Listed || ev.eventType == Added }

  /** The event makes `key` a range this server keeps offload progress for. */
  predicate Manages(serverId: int, ev: ResourceEvent, key: RangeId) {
    && Adding(ev) && ev.resource.RangeResource?
    && var r := ev.resource.range;
       (r.streamId, r.index) == key && r.HeldBy(serverId) && r.offloadOwner.Some?
  }

  /** The event hands over the object `k` of the range `key`. */
  predicate Delivers(ev: ResourceEvent, key: RangeId, k: ObjectKey) {
    && Adding(ev) && ev.resource.ObjectResource?
    && var o := ev.resource.obj;
       (o.streamId, o.rangeIndex) == key && o.Key() == k
  }

  function FeedAll(serverId: int, evs: seq<ResourceEvent>): (r: Result<MetadataState, Abort>)
    requires forall i :: 0 <= i < |evs| ==> EventOk(evs[i])
    ensures r.Ok? ==> r.value.Ok()
  {
    if evs == [] then Result.Ok(MetadataState(map[], map[]))
    else
      match FeedAll(serverId, evs[..|evs| - 1])
      case Err(e) => Err(e)
      case Ok(s) =>
        match s.OnEvent(serverId, evs[|evs| - 1])
        case Err(e) => Err(e)
        case Ok(res) => Result.Ok(res.0)
  }

  /** Event `i` manages the range, and nothing was reset after it. */
  ghost predicate ManagedFrom(serverId: int, evs: seq<ResourceEvent>, key: RangeId, i: nat) {
    && i < |evs| && Manages(serverId, evs[i], key)
    && forall j :: i < j < |evs| ==> evs[j].eventType != Reset
  }

  /** Event `j` delivered the object to a range managed from event `i` on. */
  ghost predicate HeldFrom(serverId: int, evs: seq<ResourceEvent>, key: RangeId, k: ObjectKey, i: nat, j: nat) {
    ManagedFrom(serverId, evs, key, i) && i < j < |evs| && Delivers(evs[j], key, k)
  }

  lemma {:induction false} StepManages(serverId: int, s: MetadataState, ev: ResourceEvent, t: MetadataState, key: RangeId)
    requires s.Ok() && EventOk(ev) && s.OnEvent(serverId, ev).Ok? && s.OnEvent(serverId, ev).value.0 == t
    ensures key in t.managed <==> Manages(serverId, ev, key) || (key in s.managed && ev.eventType != Reset)
  {
    hide MetadataState.Offset, MetadataState.Ok, EventOk;
  }

  lemma {:induction false} StepHolds(serverId: int, s: MetadataState, ev: ResourceEvent, t: MetadataState, key: RangeId, k: ObjectKey)
    requires s.Ok() && EventOk(ev) && s.OnEvent(serverId, ev).Ok? && s.OnEvent(serverId, ev).value.0 == t
    ensures key in t.managed && k in t.managed[key].objects
       <==> && ev.eventType != Reset && key in s.managed
            && (Delivers(ev, key, k) || k in s.managed[key].objects)
    ensures key in t.managed && k in t.managed[key].objects ==>
              t.managed[key].objects[k] == if Delivers(ev, key, k) then ev.resource.obj.Value() else s.managed[key].objects[k]
  {
    hide MetadataState.Offset, MetadataState.Ok, EventOk;
  }

  lemma {:induction false} ManagedSnoc(serverId: int, evs: seq<ResourceEvent>, last: ResourceEvent, key: RangeId, i: nat)
    ensures ManagedFrom(serverId, evs + [last], key, i)
       <==> if i < |evs| then ManagedFrom(serverId, evs, key, i) && last.eventType != Reset
            else i == |evs| && Manages(serverId, last, key)
  {
    var all := evs + [last];
    assert all[|evs|] == last && forall j :: 0 <= j < |evs| ==> all[j] == evs[j];
  }

  lemma {:induction false} FeedSnoc(serverId: int, front: seq<ResourceEvent>, last: ResourceEvent, s: MetadataState) returns (t: MetadataState)
    requires (forall i :: 0 <= i < |front| ==> EventOk(front[i])) && EventOk(last)
    requires FeedAll(serverId, front + [last]) == Result.Ok(s)
    ensures FeedAll(serverId, front) == Result.Ok(t) && t.OnEvent(serverId, last).Ok? && t.OnEvent(serverId, last).value.0 == s
  {
    hide MetadataState.OnEvent;
    assert (front + [last])[..|front|] == front;
    t := FeedAll(serverId, front).value;
  }

  /** A range is managed exactly if, since the last reset, the server was told to keep its progress. */
  lemma {:induction false} FeedManages(serverId: int, evs: seq<ResourceEvent>, key: RangeId, s: MetadataState)
    requires (forall i :: 0 <= i < |evs| ==> EventOk(evs[i])) && FeedAll(serverId, evs) == Result.Ok(s)
    ensures key in s.managed <==> exists i: nat :: ManagedFrom(serverId, evs, key, i)
    decreases |evs|
  {
    if evs != [] {
      var front, last := evs[..|evs| - 1], evs[|evs| - 1];
      assert front + [last] == evs;
      hide FeedAll, MetadataState.OnEvent, ManagedFrom;
      var t := FeedSnoc(serverId, front, last, s);
      FeedManages(serverId, front, key, t);
      StepManages(serverId, t, last, s, key);
      if i :| ManagedFrom(serverId, evs, key, i) {
        ManagedSnoc(serverId, front, last, key, i);
      }
      if i :| ManagedFrom(serverId, front, key, i) {
        ManagedBefore(serverId, front, key, i);
        ManagedSnoc(serverId, front, last, key, i);
      }
      ManagedSnoc(serverId, front, last, key, |front|);
    }
  }

  lemma {:induction false} ManagedBefore(serverId: int, evs: seq<ResourceEvent>, key: RangeId, i: nat)
    requires ManagedFrom(serverId, evs, key, i)
    ensures i < |evs|
  {
  }

  /** A managed range holds an object exactly if the object was delivered after the range came under
      management since the last reset; what was delivered last for the object is what it holds. */
  lemma {:induction false} FeedHolds(serverId: int, evs: seq<ResourceEvent>, key: RangeId, k: ObjectKey, s: MetadataState)
    requires (forall i :: 0 <= i < |evs| ==> EventOk(evs[i])) && FeedAll(serverId, evs) == Result.Ok(s)
    ensures key in s.managed && k in s.managed[key].objects <==> exists i: nat, j: nat :: HeldFrom(serverId, evs, key, k, i, j)
    ensures forall i: nat, j: nat :: HeldFrom(serverId, evs, key, k, i, j) && NoneLater(evs, key, k, j) ==>
                             key in s.managed && k in s.managed[key].objects
                             && s.managed[key].objects[k] == evs[j].resource.obj.Value()
    decreases |evs|
  {
    if evs != [] {
      var front, last := evs[..|evs| - 1], evs[|evs| - 1];
      assert front + [last] == evs;
      hide FeedAll, MetadataState.OnEvent, ManagedFrom, NoneLater;
      var t := FeedSnoc(serverId, front, last, s);
      FeedHolds(serverId, front, key, k, t);
      FeedManages(serverId, front, key, t);
      StepHolds(serverId, t, last, s, key, k);
      forall i: nat, j: nat | HeldFrom(serverId, evs, key, k, i, j)
        ensures key in s.managed && k in s.managed[key].objects
        ensures NoneLater(evs, key, k, j) ==> s.managed[key].objects[k] == evs[j].resource.obj.Value()
      {
        HeldSnoc(serverId, front, last, key, k, i, j);
        if j < |front| && NoneLater(evs, key, k, j) {
          NoneLaterSnoc(front, last, key, k, j);
        }
      }
      if key in s.managed && k in s.managed[key].objects {
        if Delivers(last, key, k) {
          var i :| ManagedFrom(serverId, front, key, i);
          ManagedBefore(serverId, front, key, i);
          HeldSnoc(serverId, front, last, key, k, i, |front|);
        } else {
          var i, j :| HeldFrom(serverId, front, key, k, i, j);
          HeldSnoc(serverId, front, last, key, k, i, j);
        }
      }
    }
  }

  /** No later event delivers the object again. */
  ghost predicate NoneLater(evs: seq<ResourceEvent>, key: RangeId, k: ObjectKey, j: nat) {
    forall n :: j < n < |evs| ==> !Delivers(evs[n], key, k)
  }

  lemma {:induction false} NoneLaterSnoc(evs: seq<ResourceEvent>, last: ResourceEvent, key: RangeId, k: ObjectKey, j: nat)
    requires j < |evs| && NoneLater(evs + [last], key, k, j)
    ensures NoneLater(evs, key, k, j) && !Delivers(last, key, k)
  {
    var all := evs + [last];
    assert all[|evs|] == last && forall n :: 0 <= n < |evs| ==> all[n] == evs[n];
  }

  lemma {:induction false} HeldSnoc(serverId: int, evs: seq<ResourceEvent>, last: ResourceEvent, key: RangeId, k: ObjectKey, i: nat, j: nat)
    ensures HeldFrom(serverId, evs + [last], key, k, i, j)
       <==> && last.eventType != Reset
            && if j < |evs| then HeldFrom(serverId, evs, key, k, i, j)
               else j == |evs| && ManagedFrom(serverId, evs, key, i) && Delivers(last, key, k)
  {
    hide ManagedFrom;
    ManagedSnoc(serverId, evs, last, key, i);
    var all := evs + [last];
    assert all[|evs|] == last && forall n :: 0 <= n < |evs| ==> all[n] == evs[n];
    if ManagedFrom(serverId, evs, key, i) {
      ManagedBefore(serverId, evs, key, i);
    }
  }

  // ---- Ranges that are not managed ----------------------------------------------------

  /** Event `j` delivered the object while its range was not managed, and nothing was reset after it. */
  ghost predicate LeftFrom(serverId: int, evs: seq<ResourceEvent>, key: RangeId, k: ObjectKey, j: nat) {
    && j < |evs| && Delivers(evs[j], key, k)
    && (forall i: nat :: !ManagedFrom(serverId, evs[..j], key, i))
    && forall n :: j < n < |evs| ==> evs[n].eventType != Reset
  }

  lemma {:induction false} StepLeaves(serverId: int, s: MetadataState, ev: ResourceEvent, t: MetadataState, key: RangeId, k: ObjectKey)
    requires s.Ok() && EventOk(ev) && s.OnEvent(serverId, ev).Ok? && s.OnEvent(serverId, ev).value.0 == t
    ensures key in t.other && k in t.other[key]
       <==> && ev.eventType != Reset
            && ((Delivers(ev, key, k) && key !in s.managed) || (key in s.other && k in s.other[key]))
    ensures key in t.other && k in t.other[key] ==>
              t.other[key][k] == if Delivers(ev, key, k) && key !in s.managed then ev.resource.obj.Value() else s.other[key][k]
  {
    hide MetadataState.Offset, MetadataState.Ok, EventOk;
  }

  lemma {:induction false} LeftSnoc(serverId: int, evs: seq<ResourceEvent>, last: ResourceEvent, key: RangeId, k: ObjectKey, j: nat)
    ensures LeftFrom(serverId, evs + [last], key, k, j)
       <==> if j < |evs| then LeftFrom(serverId, evs, key, k, j) && last.eventType != Reset
            else j == |evs| && Delivers(last, key, k) && forall i: nat :: !ManagedFrom(serverId, evs, key, i)
  {
    hide ManagedFrom;
    var all := evs + [last];
    assert all[|evs|] == last && forall n :: 0 <= n < |evs| ==> all[n] == evs[n];
    if j <= |evs| {
      assert all[..j] == evs[..j];
    }
    assert evs[..|evs|] == evs;
  }

  /** Of a range that was not managed at the time, an object is held exactly if it was delivered since the
      last reset; what was so delivered last for the object is what is held. */
  lemma {:induction false} FeedLeaves(serverId: int, evs: seq<ResourceEvent>, key: RangeId, k: ObjectKey, s: MetadataState)
    requires (forall i :: 0 <= i < |evs| ==> EventOk(evs[i])) && FeedAll(serverId, evs) == Result.Ok(s)
    ensures key in s.other && k in s.other[key] <==> exists j: nat :: LeftFrom(serverId, evs, key, k, j)
    ensures forall j: nat :: LeftFrom(serverId, evs, key, k, j) && (forall n: nat :: n > j ==> !LeftFrom(serverId, evs, key, k, n)) ==>
                               key in s.other && k in s.other[key] && s.other[key][k] == evs[j].resource.obj.Value()
    decreases |evs|
  {
    if evs != [] {
      var front, last := evs[..|evs| - 1], evs[|evs| - 1];
      assert front + [last] == evs;
      hide FeedAll, MetadataState.OnEvent, ManagedFrom, LeftFrom;
      var t := FeedSnoc(serverId, front, last, s);
      FeedLeaves(serverId, front, key, k, t);
      FeedManages(serverId, front, key, t);
      StepLeaves(serverId, t, last, s, key, k);
      forall j: nat
        ensures LeftFrom(serverId, evs, key, k, j)
           <==> if j < |front| then LeftFrom(serverId, front, key, k, j) && last.eventType != Reset
                else j == |front| && Delivers(last, key, k) && key !in t.managed
      {
        LeftSnoc(serverId, front, last, key, k, j);
      }
      forall j: nat | LeftFrom(serverId, front, key, k, j)
        ensures j < |front|
      {
        LeftBefore(serverId, front, key, k, j);
      }
      if Delivers(last, key, k) && key !in t.managed {
        assert LeftFrom(serverId, evs, key, k, |front|);
      }
    }
  }

  lemma {:induction false} LeftBefore(serverId: int, evs: seq<ResourceEvent>, key: RangeId, k: ObjectKey, j: nat)
    requires LeftFrom(serverId, evs, key, k, j)
    ensures j < |evs|
  {
  }
}
