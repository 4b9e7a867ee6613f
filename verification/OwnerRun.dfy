/**
 The offload of a range, end to end: the object manager tells an owner where to go on, the owner uploads,
 its commits come back through the feed in some order, and the manager reports how far the range is
 offloaded (components/object-storage/src/object_manager.rs, range_offload.rs, range_accumulator.rs).
 */
module OwnerRun {
  import opened Prelude
  import opened ObjectChain
  import opened OffloadProgress
  import opened ArrivedPieces
  import opened ResourceModel
  import M = ObjectManager
  import opened ObjectFeed
  import opened RecordFormat
  import R = RangeOffload

  /** The feed up to the event that makes this server the owner of the range, and what was told to the
      owner: where to start, and its epoch. */
  datatype Start = Start(serverId: int, key: RangeId, before: seq<ResourceEvent>, ev: ResourceEvent, told: M.Owner) {

    function Feed(): seq<ResourceEvent> { before + [ev] }

    function RangeStart(): nat
      requires ev.resource.RangeResource?
    {
      ev.resource.range.start
    }

    ghost predicate Leads(s: M.MetadataState) {
      && AllOk(Feed()) && M.FeedAll(serverId, Feed()) == Result.Ok(s)
      && ManagedRange(serverId, ev) == Some(key)
      && AllOk(before) && M.FeedAll(serverId, before).Ok? && M.EventOk(ev)
      && M.FeedAll(serverId, before).value.OnEvent(serverId, ev).Ok?
      && M.FeedAll(serverId, before).value.OnEvent(serverId, ev).value == (s, M.Sent([], [M.OwnerEvent(key, Some(told))]))
    }

    /** The owner works on that range, in that epoch. */
    function Owner(objectSize: nat): R.Owner { R.Owner(key.0, key.1, told.epoch, objectSize) }
  }

  /** The owner was told the end of the walk over the objects that were delivered for its range, and the
      epoch the placement driver gave it. */
  lemma {:induction false} ToldWalkEnd(a: Start, s: M.MetadataState)
    requires a.Leads(s)
    ensures a.key in s.managed && s.managed[a.key].startOffset == a.RangeStart() && WellFormed(s.managed[a.key].objects)
    ensures a.told.startOffset == WalkEnd(s.managed[a.key].objects, a.RangeStart())
    ensures a.ev.resource.range.offloadOwner == Some(OffloadOwner(a.serverId, a.told.epoch))
  {
    hide M.MetadataState.OnEvent, M.FeedAll;
    var p := M.FeedAll(a.serverId, a.before).value;
    SentExactly(a.serverId, p, a.ev, s, M.Sent([], [M.OwnerEvent(a.key, Some(a.told))]));
    StepFields(a.serverId, p, a.ev, s, a.key);
    var m := s.managed[a.key];
    var c :| ReachedBy(m, c, a.told.startOffset);
    ChainCharacterised(m.objects, m.startOffset, U64_MAX, U32_MAX, c);
  }

  /** The uploads of a run of the owner from where it was told to start. */
  ghost predicate Uploads(a: Start, objectSize: nat, turns: seq<R.Turn>, decode: Decoder, us: seq<R.Upload>) {
    && a.told.startOffset <= U64_MAX && a.told.epoch < U16_MAX
    && R.Runs(R.Init(a.told.startOffset), objectSize, turns, decode)
    && us == R.After(R.Init(a.told.startOffset), objectSize, turns, decode).offload.uploads
    && R.SpansFit(us)
  }

  /** Their commits come back behind the start, in the order `order`, with nothing else for the range and
      without a change of its start. */
  ghost predicate ComesBack(a: Start, ts: seq<ObjectMetadata>, after: seq<ResourceEvent>, order: seq<nat>, t: M.MetadataState)
    requires a.ev.resource.RangeResource?
  {
    && AllOk(a.Feed() + after) && M.FeedAll(a.serverId, a.Feed() + after) == Result.Ok(t)
    && KeepsRange(a.serverId, after, a.key, a.RangeStart())
    && (forall i :: 0 <= i < |order| ==> order[i] < |ts|)
    && DeliveredTo(after, a.key) == Arrivals(ts, order)
  }

  /** What is held for the range before and after. */
  function GrowthOf(a: Start, s: M.MetadataState, ts: seq<ObjectMetadata>, order: seq<nat>, t: M.MetadataState): Growth
    requires a.key in s.managed && a.key in t.managed && a.ev.resource.RangeResource?
  {
    Growth(s.managed[a.key].objects, a.RangeStart(), ts, a.told.epoch, (set i | i in order), t.managed[a.key].objects)
  }

  lemma {:induction false} CommitsContinue(a: Start, objectSize: nat, turns: seq<R.Turn>, decode: Decoder, us: seq<R.Upload>)
    requires Uploads(a, objectSize, turns, decode, us)
    ensures Tiling(R.Commits(a.Owner(objectSize), us), a.told.startOffset, a.told.epoch)
  {
    var pending := R.OffloadTiles(a.Owner(objectSize), a.told.startOffset, turns, decode);
  }

  lemma {:induction false} GrowthExtends(a: Start, s: M.MetadataState, ts: seq<ObjectMetadata>, after: seq<ResourceEvent>, order: seq<nat>,
                                         t: M.MetadataState)
    requires a.Leads(s) && Tiling(ts, a.told.startOffset, a.told.epoch)
    requires a.key in s.managed && forall k :: k in s.managed[a.key].objects ==> k.epoch < a.told.epoch
    requires ComesBack(a, ts, after, order, t)
    ensures a.key in t.managed && t.managed[a.key].startOffset == a.RangeStart()
    ensures GrowthOf(a, s, ts, order, t).Extends()
  {
    hide Start.Leads, Growth.Holds, M.FeedAll, Tiling, KeepsRange;
    ToldWalkEnd(a, s);
    LeadsFeed(a, s);
    FeedGrows(a.serverId, a.Feed(), after, a.key, a.RangeStart(), s, t);
    var objs := s.managed[a.key].objects;
    var g := Growth(objs, a.RangeStart(), ts, a.told.epoch, {}, objs);
    assert g.Extends() by { NoneYet(g); }
    DeliveryKeeps(g, order);
    assert Delivered(g, order) == GrowthOf(a, s, ts, order, t) by { assert {} + (set i | i in order) == set i | i in order; }
  }

  lemma {:induction false} LeadsFeed(a: Start, s: M.MetadataState)
    requires a.Leads(s)
    ensures AllOk(a.Feed()) && M.FeedAll(a.serverId, a.Feed()) == Result.Ok(s) && a.ev.resource.RangeResource?
  {
  }

  lemma {:induction false} NoneYet(g: Growth)
    requires g.arrived == {} && g.more == g.objs
    ensures g.Holds()
  {
  }

  /** Whatever the order in which an owner's commits come back, and whatever the feed brings for other
      ranges: the range is reported offloaded up to the end of the longest prefix that has arrived, if and
      only if the bytes the walk counts fit 32 bits and do not reach the maximum before its last object.
      The walk then takes the objects of earlier owners and goes on with the new ones, without a gap or
      an overlap. */
  lemma {:induction false} OffloadOfOwner(a: Start, s: M.MetadataState, objectSize: nat, turns: seq<R.Turn>, decode: Decoder, us: seq<R.Upload>,
                                          ts: seq<ObjectMetadata>, after: seq<ResourceEvent>, order: seq<nat>, t: M.MetadataState)
    requires a.Leads(s) && a.key in s.managed && forall k :: k in s.managed[a.key].objects ==> k.epoch < a.told.epoch
    requires Uploads(a, objectSize, turns, decode, us) && ts == R.Commits(a.Owner(objectSize), us)
    requires ComesBack(a, ts, after, order, t)
    ensures t.Ok() && a.key in t.managed && GrowthOf(a, s, ts, order, t).Extends()
    ensures var g := GrowthOf(a, s, ts, order, t);
            var ms := g.Taken();
            && (t.Offset(a.key) == Result.Ok(TileEnd(ts, a.told.startOffset, g.Prefix())) <==> BelowMaximum(ms, |ms|) && TileSize(ms, |ms|) <= U32_MAX)
            && (BelowMaximum(ms, |ms|) ==> Chain(t.managed[a.key].objects, a.RangeStart(), U64_MAX, U32_MAX) == TileKeys(ms, |ms|))
  {
    hide Start.Leads, Growth.Holds, Growth.Continues, Tiling, KeepsRange, Uploads, Chain;
    LeadsFeed(a, s);
    CommitsContinue(a, objectSize, turns, decode, us);
    GrowthExtends(a, s, ts, after, order, t);
    ToldWalkEnd(a, s);
    OffloadGoesOn(GrowthOf(a, s, ts, order, t));
  }

  /** A commit of the owner, handed over by the feed, changes nothing that is held for another range. */
  lemma {:induction false} CommitStaysHome(serverId: int, owner: R.Owner, u: R.Upload, s: M.MetadataState, t: M.MetadataState, sent: M.Sent, key: RangeId)
    requires u.start < R.EndOffsetOf(u) && s.Ok() && M.ObjectOk(R.Committed(owner, u)) && key != (owner.streamId, owner.rangeIndex)
    requires s.OnEvent(serverId, ResourceEvent(Added, ObjectResource(R.Committed(owner, u)))) == Result.Ok((t, sent))
    ensures (key in t.managed <==> key in s.managed) && (key in s.managed ==> t.managed[key] == s.managed[key])
    ensures (key in t.other <==> key in s.other) && (key in s.other ==> t.other[key] == s.other[key])
    ensures forall i :: 0 <= i < |sent.progress| ==> sent.progress[i].0 == (owner.streamId, owner.rangeIndex)
  {
    hide M.MetadataState.Offset, R.Committed, M.ObjectOk;
    R.CommitExact(owner, u, R.Committed(owner, u));
  }
}
