/**
 What the metadata manager tells the store: for every held range, the last event it emitted follows
 from what it has received, and nothing else (range-server/src/metadata/manager.rs).
 */
module RangeEvents {
  import opened Prelude
  import opened ResourceModel
  import opened MetadataManager

  // ---- The event a range should get, from what was received ---------------------------

  /** The largest of the stream start, the range start and the progress that were received. */
  ghost predicate IsLargest(rec: Received, i: nat, v: nat) {
    && (rec.metadata.Some? ==> rec.metadata.value.startOffset <= v)
    && (i in rec.ranges ==> rec.ranges[i].start <= v)
    && (i in rec.offloaded ==> rec.offloaded[i] <= v)
    && (|| v == 0
        || (rec.metadata.Some? && rec.metadata.value.startOffset == v)
        || (i in rec.ranges && rec.ranges[i].start == v)
        || (i in rec.offloaded && rec.offloaded[i] == v))
  }

  /** The range is known to end, and progress has reached that end. */
  ghost predicate Complete(rec: Received, i: nat) {
    && i in rec.ranges && rec.ranges[i].end.Some?
    && i in rec.offloaded && rec.ranges[i].end.value <= rec.offloaded[i]
  }

  /** The event is the one that what was received calls for. */
  ghost predicate Tells(rec: Received, i: nat, e: RangeEvent) {
    && e.range == (rec.streamId, i)
    && if Complete(rec, i) then e.Offloaded? else e.OffsetMove? && IsLargest(rec, i, e.startOffset)
  }

  ghost predicate Ordered(es: seq<RangeEvent>) {
    forall a, b :: 0 <= a < b < |es| ==> es[a].range.1 < es[b].range.1
  }

  lemma {:induction false} LargestIsStart(s: StreamState, i: nat, v: nat)
    ensures IsLargest(ReceivedBy(s), i, v) <==> v == s.NewStartOffset(i)
  {
  }

  lemma {:induction false} EventTells(s: StreamState, i: nat, start: nat)
    ensures var end := if i in s.ranges then s.ranges[i].range.end else None;
            Tells(ReceivedBy(s), i, s.Event(i, end, start)) <==> Complete(ReceivedBy(s), i) || start == s.NewStartOffset(i)
  {
    LargestIsStart(s, i, start);
  }

  // ---- The events of each input -------------------------------------------------------

  /** Progress makes one event: the one called for, whether or not the range is held. */
  lemma {:induction false} ProgressTells(s: StreamState, index: nat, offset: nat)
    ensures var (t, e) := s.UpdateOffloaded(index, offset);
            ReceivedBy(t) == ReceivedBy(s).(offloaded := s.offloaded[index := offset]) && Tells(ReceivedBy(t), index, e)
  {
    var (t, e) := s.UpdateOffloaded(index, offset);
    OffloadedReceived(s, index, offset);
    EventTells(t, index, t.NewStartOffset(index));
  }

  /** Adding a range makes one event. It is the one called for, unless the start it replaces exceeds all
      that is known now and the range is not complete. */
  lemma {:induction false} AddTellsIff(s: StreamState, r: RangeMetadata)
    requires Exact(s)
    ensures var (t, e) := s.Add(r);
            && ReceivedBy(t) == ReceivedBy(s).(ranges := ReceivedBy(s).ranges[r.index := r])
            && (Tells(ReceivedBy(t), r.index, e)
                <==> Complete(ReceivedBy(t), r.index) || s.RangeStart(r.index) <= Max(s.StreamStart(), Max(r.start, s.OffloadedOf(r.index))))
  {
    var (t, e) := s.Add(r);
    AddReceived(s, r);
    EventTells(t, r.index, Max(s.NewStartOffset(r.index), r.start));
  }

  /** New stream metadata make one event for each range whose offset changes, in index order, and no
      other: the one called for. */
  ghost predicate UpdateTold(s: StreamState, md: StreamMetadata, indexes: set<nat>, es: seq<RangeEvent>)
    requires indexes <= s.ranges.Keys
  {
    var rec := ReceivedBy(s).(metadata := Some(md));
    && Ordered(es)
    && (forall j :: 0 <= j < |es| ==> es[j].range.1 in indexes && Tells(rec, es[j].range.1, es[j]))
    && forall i :: i in indexes ==> (Mentions(es, (s.streamId, i)) <==> !IsLargest(rec, i, s.ranges[i].deletable))
  }

  ghost predicate Mentions(es: seq<RangeEvent>, range: RangeId) {
    exists j :: 0 <= j < |es| && es[j].range == range
  }

  lemma {:induction false} UpdateOne(s: StreamState, md: StreamMetadata, i: nat)
    requires i in s.ranges
    ensures var es, rec := s.UpdateEvent(md, i), ReceivedBy(s).(metadata := Some(md));
            if IsLargest(rec, i, s.ranges[i].deletable) then es == [] else |es| == 1 && Tells(rec, i, es[0])
  {
    var t := s.(metadata := Some(md));
    assert ReceivedBy(t) == ReceivedBy(s).(metadata := Some(md));
    LargestIsStart(t, i, s.ranges[i].deletable);
    EventTells(t, i, t.NewStartOffset(i));
    assert t.Event(i, s.ranges[i].range.end, t.NewStartOffset(i)) == s.Event(i, s.ranges[i].range.end, t.NewStartOffset(i));
  }

  lemma {:induction false} UpdateTells(s: StreamState, md: StreamMetadata, indexes: set<nat>)
    requires indexes <= s.ranges.Keys
    ensures UpdateTold(s, md, indexes, s.UpdateEvents(md, indexes))
    decreases |indexes|
  {
    if indexes != {} {
      var i := MinOf(indexes);
      var one, rest := s.UpdateEvent(md, i), s.UpdateEvents(md, indexes - {i});
      UpdateOne(s, md, i);
      UpdateTells(s, md, indexes - {i});
      UpdateCons(s, md, i, indexes, one, rest);
    }
  }

  lemma {:induction false} UpdateCons(s: StreamState, md: StreamMetadata, i: nat, indexes: set<nat>, one: seq<RangeEvent>, rest: seq<RangeEvent>)
    requires indexes <= s.ranges.Keys && i in indexes && forall x :: x in indexes ==> i <= x
    requires var rec := ReceivedBy(s).(metadata := Some(md));
             if IsLargest(rec, i, s.ranges[i].deletable) then one == [] else |one| == 1 && Tells(rec, i, one[0])
    requires UpdateTold(s, md, indexes - {i}, rest)
    ensures UpdateTold(s, md, indexes, one + rest)
  {
    hide IsLargest, Complete;
    var es := one + rest;
    forall x | x in indexes
      ensures Mentions(es, (s.streamId, x)) <==> Mentions(one, (s.streamId, x)) || Mentions(rest, (s.streamId, x))
    {
      MentionsConcat(one, rest, (s.streamId, x));
    }
    assert forall j :: 0 <= j < |rest| ==> rest[j].range.1 in indexes - {i};
  }

  lemma {:induction false} MentionsConcat(a: seq<RangeEvent>, b: seq<RangeEvent>, range: RangeId)
    ensures Mentions(a + b, range) <==> Mentions(a, range) || Mentions(b, range)
  {
    if j :| 0 <= j < |a| && a[j].range == range {
      assert (a + b)[j].range == range;
    }
    if j :| 0 <= j < |b| && b[j].range == range {
      assert (a + b)[|a| + j].range == range;
    }
  }

  /** Ranges are held under their own stream and index. */
  ghost predicate Placed(s: StreamState) {
    forall i :: i in s.ranges ==> s.ranges[i].range.streamId == s.streamId && s.ranges[i].range.index == i
  }

  /** One Del for each range, in index order, and no other event. */
  ghost predicate Destroyed(id: nat, indexes: set<nat>, es: seq<RangeEvent>) {
    && Ordered(es)
    && (forall j :: 0 <= j < |es| ==> es[j].range.1 in indexes && es[j] == Del((id, es[j].range.1)))
    && forall i :: i in indexes ==> Mentions(es, (id, i))
  }

  /** A deleted stream makes one Del for each range it holds. */
  lemma {:induction false} DestroyTells(s: StreamState, indexes: set<nat>)
    requires Placed(s) && indexes <= s.ranges.Keys
    ensures Destroyed(s.streamId, indexes, DestroyEvents(s, indexes))
    decreases |indexes|
  {
    if indexes != {} {
      var i := MinOf(indexes);
      var rest := DestroyEvents(s, indexes - {i});
      DestroyTells(s, indexes - {i});
      assert DestroyEvents(s, indexes) == [Del((s.streamId, i))] + rest;
      DestroyCons(s.streamId, i, indexes, rest);
    }
  }

  lemma {:induction false} DestroyCons(id: nat, i: nat, indexes: set<nat>, rest: seq<RangeEvent>)
    requires i in indexes && forall x :: x in indexes ==> i <= x
    requires Destroyed(id, indexes - {i}, rest)
    ensures Destroyed(id, indexes, [Del((id, i))] + rest)
  {
    var one := [Del((id, i))];
    assert one[0].range == (id, i);
    forall x | x in indexes
      ensures Mentions(one + rest, (id, x))
    {
      MentionsConcat(one, rest, (id, x));
    }
    assert forall j :: 0 <= j < |rest| ==> rest[j].range.1 in indexes - {i};
  }

  // ---- The last event of every held range, over every run -----------------------------

  ghost predicate LastAt(es: seq<RangeEvent>, range: RangeId, n: int) {
    && 0 <= n < |es| && es[n].range == range
    && forall m :: n < m < |es| ==> es[m].range != range
  }

  /** The last event emitted for a range of the stream is the one called for. */
  ghost predicate TellsLast(s: StreamState, i: nat, emitted: seq<RangeEvent>) {
    exists n :: LastAt(emitted, (s.streamId, i), n) && Tells(ReceivedBy(s), i, emitted[n])
  }

  ghost predicate StreamTold(s: StreamState, emitted: seq<RangeEvent>) {
    Exact(s) && Placed(s) && forall i :: i in s.ranges ==> TellsLast(s, i, emitted)
  }

  ghost predicate Told(sm: StreamMap, emitted: seq<RangeEvent>) {
    forall id :: id in sm ==> sm[id].streamId == id && StreamTold(sm[id], emitted)
  }

  lemma {:induction false} StillLast(emitted: seq<RangeEvent>, es: seq<RangeEvent>, range: RangeId, n: int)
    requires LastAt(emitted, range, n) && !Mentions(es, range)
    ensures LastAt(emitted + es, range, n)
  {
    var all := emitted + es;
    forall m | n < m < |all|
      ensures all[m].range != range
    {
      if m >= |emitted| {
        assert all[m] == es[m - |emitted|];
      }
    }
  }

  lemma {:induction false} NowLast(emitted: seq<RangeEvent>, es: seq<RangeEvent>, range: RangeId, n: int)
    requires LastAt(es, range, n)
    ensures LastAt(emitted + es, range, |emitted| + n)
  {
    var all := emitted + es;
    forall m | |emitted| + n < m < |all|
      ensures all[m].range != range
    {
      assert all[m] == es[m - |emitted|];
    }
  }

  lemma {:induction false} OrderedLast(es: seq<RangeEvent>, range: RangeId, n: nat)
    requires Ordered(es) && n < |es| && es[n].range == range
    ensures LastAt(es, range, n)
  {
  }

  /** A range about which nothing new is received or emitted. */
  lemma {:induction false} Untouched(s: StreamState, t: StreamState, i: nat, emitted: seq<RangeEvent>, es: seq<RangeEvent>)
    requires TellsLast(s, i, emitted) && !Mentions(es, (s.streamId, i)) && t.streamId == s.streamId
    requires forall e :: Tells(ReceivedBy(s), i, e) ==> Tells(ReceivedBy(t), i, e)
    ensures TellsLast(t, i, emitted + es)
  {
    hide Tells;
    var n :| LastAt(emitted, (s.streamId, i), n) && Tells(ReceivedBy(s), i, emitted[n]);
    StillLast(emitted, es, (s.streamId, i), n);
    assert (emitted + es)[n] == emitted[n];
  }

  lemma {:induction false} SameCall(a: Received, b: Received, i: nat)
    requires a.streamId == b.streamId && a.metadata == b.metadata
    requires (i in a.ranges <==> i in b.ranges) && (i in a.ranges ==> a.ranges[i] == b.ranges[i])
    requires (i in a.offloaded <==> i in b.offloaded) && (i in a.offloaded ==> a.offloaded[i] == b.offloaded[i])
    ensures forall e :: Tells(a, i, e) ==> Tells(b, i, e)
  {
  }

  /** A range for which an event was emitted. */
  lemma {:induction false} Touched(t: StreamState, i: nat, emitted: seq<RangeEvent>, es: seq<RangeEvent>, n: nat)
    requires Ordered(es) && n < |es| && es[n].range == (t.streamId, i) && Tells(ReceivedBy(t), i, es[n])
    ensures TellsLast(t, i, emitted + es)
  {
    OrderedLast(es, (t.streamId, i), n);
    NowLast(emitted, es, (t.streamId, i), n);
    assert (emitted + es)[|emitted| + n] == es[n];
  }

  /** An added range does not start behind all that is known of it, unless it did so before. */
  predicate NotBehind(serverId: int, sm: StreamMap, input: Input) {
    (&& input.Meta? && input.event.resource.RangeResource? && input.event.resource.range.HeldBy(serverId)
     && input.event.eventType in {Listed, Added, Modified}) ==>
      var r := input.event.resource.range;
      var s := StreamOf(sm, r.streamId);
      s.RangeStart(r.index) <= Max(s.StreamStart(), Max(r.start, s.OffloadedOf(r.index)))
  }

  lemma {:induction false} ElsewhereTold(s: StreamState, emitted: seq<RangeEvent>, es: seq<RangeEvent>)
    requires StreamTold(s, emitted) && forall j :: 0 <= j < |es| ==> es[j].range.0 != s.streamId
    ensures StreamTold(s, emitted + es)
  {
    hide Tells;
    forall i | i in s.ranges
      ensures TellsLast(s, i, emitted + es)
    {
      Untouched(s, s, i, emitted, es);
    }
  }

  lemma {:induction false} AddTold(s: StreamState, r: RangeMetadata, emitted: seq<RangeEvent>)
    requires StreamTold(s, emitted) && r.streamId == s.streamId
    requires s.RangeStart(r.index) <= Max(s.StreamStart(), Max(r.start, s.OffloadedOf(r.index)))
    ensures StreamTold(s.Add(r).0, emitted + [s.Add(r).1])
  {
    hide Tells, TellsLast, ReceivedBy;
    var (t, e) := s.Add(r);
    AddExactIff(s, r);
    AddTellsIff(s, r);
    forall i | i in t.ranges
      ensures TellsLast(t, i, emitted + [e])
    {
      if i == r.index {
        Touched(t, i, emitted, [e], 0);
      } else {
        SameCall(ReceivedBy(s), ReceivedBy(t), i);
        Untouched(s, t, i, emitted, [e]);
      }
    }
  }

  lemma {:induction false} RemoveTold(s: StreamState, r: RangeMetadata, emitted: seq<RangeEvent>)
    requires StreamTold(s, emitted) && r.streamId == s.streamId
    ensures StreamTold(s.Remove(r).0, emitted + [s.Remove(r).1])
  {
    hide TellsLast;
    var (t, e) := s.Remove(r);
    forall i | i in t.ranges
      ensures TellsLast(t, i, emitted + [e])
    {
      assert s.ranges[i].deletable == s.NewStartOffset(i);
      Untouched(s, t, i, emitted, [e]);
    }
  }

  lemma {:induction false} ProgressTold(s: StreamState, index: nat, offset: nat, emitted: seq<RangeEvent>)
    requires StreamTold(s, emitted)
    ensures StreamTold(s.UpdateOffloaded(index, offset).0, emitted + [s.UpdateOffloaded(index, offset).1])
  {
    hide Tells, TellsLast;
    var (t, e) := s.UpdateOffloaded(index, offset);
    OffloadedExact(s, index, offset);
    ProgressTells(s, index, offset);
    forall i | i in t.ranges
      ensures TellsLast(t, i, emitted + [e])
    {
      if i == index {
        Touched(t, i, emitted, [e], 0);
      } else {
        SameCall(ReceivedBy(s), ReceivedBy(t), i);
        Untouched(s, t, i, emitted, [e]);
      }
    }
  }

  lemma {:induction false} StreamUpdateTold(s: StreamState, md: StreamMetadata, emitted: seq<RangeEvent>)
    requires StreamTold(s, emitted)
    ensures StreamTold(s.UpdateStream(md), emitted + s.UpdateEvents(md, s.ranges.Keys))
  {
    hide Tells, TellsLast, UpdateTold;
    var t, es := s.UpdateStream(md), s.UpdateEvents(md, s.ranges.Keys);
    UpdateTells(s, md, s.ranges.Keys);
    forall i | i in t.ranges
      ensures TellsLast(t, i, emitted + es)
    {
      RefreshedTold(s, md, i, emitted, es);
    }
  }

  lemma {:induction false} RefreshedTold(s: StreamState, md: StreamMetadata, i: nat, emitted: seq<RangeEvent>, es: seq<RangeEvent>)
    requires i in s.ranges && s.ranges[i].deletable == s.NewStartOffset(i) && TellsLast(s, i, emitted)
    requires UpdateTold(s, md, s.ranges.Keys, es)
    ensures TellsLast(s.UpdateStream(md), i, emitted + es)
  {
    hide Tells, IsLargest;
    var t := s.UpdateStream(md);
    UpdateReceived(s, md);
    if Mentions(es, (s.streamId, i)) {
      var n :| 0 <= n < |es| && es[n].range == (s.streamId, i);
      Touched(t, i, emitted, es, n);
    } else {
      LargestIsStart(s, i, s.ranges[i].deletable);
      SameStart(ReceivedBy(s), ReceivedBy(t), i, s.ranges[i].deletable);
      Untouched(s, t, i, emitted, es);
    }
  }

  lemma {:induction false} SameStart(a: Received, b: Received, i: nat, v: nat)
    requires b == a.(metadata := b.metadata) && IsLargest(a, i, v) && IsLargest(b, i, v)
    ensures forall e :: Tells(a, i, e) ==> Tells(b, i, e)
  {
  }

  lemma {:induction false} RangeStepTold(serverId: int, sm: StreamMap, ev: ResourceEvent, emitted: seq<RangeEvent>)
    requires Told(sm, emitted) && ev.resource.RangeResource? && NotBehind(serverId, sm, Meta(ev))
    ensures var (next, es) := HandleEvent(serverId, ev, sm); Told(next, emitted + es)
  {
    hide StreamTold;
    var r := ev.resource.range;
    var (next, es) := HandleEvent(serverId, ev, sm);
    if r.HeldBy(serverId) {
      var s := StreamOf(sm, r.streamId);
      FreshTold(r.streamId, None, emitted);
      match ev.eventType {
        case Listed | Added | Modified => AddTold(s, r, emitted);
        case Deleted => RemoveTold(s, r, emitted);
        case _ => assert emitted + es == emitted;
      }
      OthersTold(sm, next, r.streamId, emitted, es);
    } else {
      assert emitted + es == emitted;
    }
  }

  lemma {:induction false} FreshTold(id: nat, md: Option<StreamMetadata>, emitted: seq<RangeEvent>)
    ensures StreamTold(Fresh(id).(metadata := md), emitted)
  {
  }

  /** The events of one stream leave the others as they were. */
  lemma {:induction false} OthersTold(sm: StreamMap, next: StreamMap, id: nat, emitted: seq<RangeEvent>, es: seq<RangeEvent>)
    requires Told(sm, emitted) && forall j :: 0 <= j < |es| ==> es[j].range.0 == id
    requires forall x :: x in next && x != id ==> x in sm && next[x] == sm[x]
    requires id in next ==> next[id].streamId == id && StreamTold(next[id], emitted + es)
    ensures Told(next, emitted + es)
  {
    hide StreamTold;
    forall x | x in next && x != id
      ensures StreamTold(next[x], emitted + es)
    {
      ElsewhereTold(sm[x], emitted, es);
    }
  }

  lemma {:induction false} StreamStepTold(serverId: int, sm: StreamMap, ev: ResourceEvent, emitted: seq<RangeEvent>)
    requires Told(sm, emitted) && ev.resource.StreamResource?
    ensures var (next, es) := HandleEvent(serverId, ev, sm); Told(next, emitted + es)
  {
    hide Tells, Ordered, TellsLast;
    var md := ev.resource.stream;
    var (next, es) := HandleEvent(serverId, ev, sm);
    if md.streamId in sm {
      var s := sm[md.streamId];
      if ev.eventType in {Listed, Added, Modified} {
        StreamUpdateTold(s, md, emitted);
        UpdateTells(s, md, s.ranges.Keys);
        TellsHere(s, md, es);
        OthersTold(sm, next, md.streamId, emitted, es);
      } else if ev.eventType == Deleted {
        DestroyTells(s, s.ranges.Keys);
        OthersTold(sm, next, md.streamId, emitted, es);
      } else {
        assert emitted + es == emitted;
      }
    } else {
      FreshTold(md.streamId, Some(md), emitted);
      assert emitted + es == emitted;
    }
  }

  lemma {:induction false} TellsHere(s: StreamState, md: StreamMetadata, es: seq<RangeEvent>)
    requires UpdateTold(s, md, s.ranges.Keys, es)
    ensures forall j :: 0 <= j < |es| ==> es[j].range.0 == s.streamId
  {
  }

  lemma {:induction false} StepTold(serverId: int, sm: StreamMap, input: Input, emitted: seq<RangeEvent>)
    requires Told(sm, emitted) && NotBehind(serverId, sm, input)
    ensures Told(Step(serverId, sm, input), emitted + Emits(serverId, sm, input))
  {
    hide StreamTold;
    match input {
      case Meta(ev) =>
        match ev.resource {
          case StreamResource(_) => StreamStepTold(serverId, sm, ev, emitted);
          case RangeResource(_) => RangeStepTold(serverId, sm, ev, emitted);
          case _ => assert emitted + Emits(serverId, sm, input) == emitted;
        }
      case Progress(range, offset) =>
        FreshTold(range.0, None, emitted);
        ProgressTold(StreamOf(sm, range.0), range.1, offset, emitted);
        OthersTold(sm, Step(serverId, sm, input), range.0, emitted, Emits(serverId, sm, input));
    }
  }

  /** The events of an input, from what is held before it and what has been received after it. */
  ghost predicate Answers(serverId: int, sm: StreamMap, input: Input, next: StreamMap, es: seq<RangeEvent>) {
    match input
    case Progress(range, _) => |es| == 1 && range.0 in next && Tells(ReceivedBy(next[range.0]), range.1, es[0])
    case Meta(ev) =>
      var adds := ev.eventType in {Listed, Added, Modified};
      match ev.resource
      case StreamResource(md) =>
        if md.streamId !in sm || !(adds || ev.eventType == Deleted) then es == []
        else if adds then UpdateTold(sm[md.streamId], md, sm[md.streamId].ranges.Keys, es)
        else Destroyed(md.streamId, sm[md.streamId].ranges.Keys, es)
      case RangeResource(r) =>
        if !r.HeldBy(serverId) || !(adds || ev.eventType == Deleted) then es == []
        else if adds then |es| == 1 && r.streamId in next && Tells(ReceivedBy(next[r.streamId]), r.index, es[0])
        else es == [Del((r.streamId, r.index))]
      case _ => es == []
  }

  /** Every input makes the events that what was received calls for, and no others. */
  lemma {:induction false} EmitsExactly(serverId: int, sm: StreamMap, input: Input)
    requires AllExact(sm) && (forall id :: id in sm ==> Placed(sm[id])) && NotBehind(serverId, sm, input)
    ensures Answers(serverId, sm, input, Step(serverId, sm, input), Emits(serverId, sm, input))
  {
    hide Tells, UpdateTold, Destroyed, Placed, ReceivedBy;
    match input {
      case Meta(ev) =>
        match ev.resource {
          case StreamResource(md) =>
            if md.streamId in sm {
              UpdateTells(sm[md.streamId], md, sm[md.streamId].ranges.Keys);
              DestroyTells(sm[md.streamId], sm[md.streamId].ranges.Keys);
            }
          case RangeResource(r) => AddTellsIff(StreamOf(sm, r.streamId), r);
          case _ =>
        }
      case Progress(range, offset) => ProgressTells(StreamOf(sm, range.0), range.1, offset);
    }
  }

  ghost predicate NeverBehind(serverId: int, sm: StreamMap, inputs: seq<Input>)
    decreases |inputs|
  {
    inputs == [] || (NotBehind(serverId, sm, inputs[0]) && NeverBehind(serverId, Step(serverId, sm, inputs[0]), inputs[1..]))
  }

  lemma {:induction false} RunTold(serverId: int, sm: StreamMap, inputs: seq<Input>, emitted: seq<RangeEvent>)
    requires Told(sm, emitted) && NeverBehind(serverId, sm, inputs)
    ensures Told(Run(serverId, sm, inputs), emitted + Trace(serverId, sm, inputs))
    decreases |inputs|
  {
    hide Told, Step, Emits, NotBehind;
    if inputs == [] {
      assert emitted + [] == emitted;
    } else {
      StepTold(serverId, sm, inputs[0], emitted);
      var e, next := Emits(serverId, sm, inputs[0]), Step(serverId, sm, inputs[0]);
      RunTold(serverId, next, inputs[1..], emitted + e);
      ConcatAssoc(emitted, e, Trace(serverId, next, inputs[1..]));
    }
  }

  /** Over every run of both channels in which no range is added behind what is known of it, and once a
      listing has finished: the last event sent for every held range is Offloaded if progress has reached
      its known end, and otherwise a move to exactly the largest of the stream start, the range start and
      the progress that were received. */
  lemma {:induction false} LastEventTells(serverId: int, inputs: seq<Input>, end: ManagerState, id: nat, i: nat) returns (n: nat)
    requires ProgressAfterListing(false, inputs) && NeverBehind(serverId, map[], inputs) && Finishes(inputs)
    requires end == Listen(serverId, ManagerState(map[], false, [], []), inputs)
    requires id in end.streams && i in end.streams[id].ranges
    ensures n < |end.sent| && Tells(ReceivedBy(end.streams[id]), i, end.sent[n]) && end.sent[n].range == (id, i)
    ensures forall m :: n < m < |end.sent| ==> end.sent[m].range != (id, i)
  {
    hide Tells, Run, Trace;
    ListingHoldsBack(serverId, ManagerState(map[], false, [], []), inputs);
    RunTold(serverId, map[], inputs, []);
    assert [] + Trace(serverId, map[], inputs) == Trace(serverId, map[], inputs);
    assert end.sent + [] == end.sent;
    var s := end.streams[id];
    assert TellsLast(s, i, end.sent);
    n :| LastAt(end.sent, (id, i), n) && Tells(ReceivedBy(s), i, end.sent[n]);
  }
}
