/**
 Streams and their ranges on one range server, and the operations and metadata events that
 change them (range-server/src/range_manager/stream.rs, manager.rs).

 A stream owns its ranges by value and the manager owns its streams by value, so both are
 values here; the manager is the object whose field is reassigned.
 */
module RangeManager {
  import opened Prelude
  import opened ResourceModel
  import opened AppendWindow

  // ---- The list of ranges of a stream ---------------------------------------------

  function Lookup(rs: seq<RangeState>, index: nat): Option<RangeState> {
    if rs == [] then None
    else if rs[0].metadata.index == index then Some(rs[0])
    else Lookup(rs[1..], index)
  }

  /** The list with its first entry for `index` replaced. */
  function Put(rs: seq<RangeState>, index: nat, r: RangeState): seq<RangeState> {
    if rs == [] then []
    else if rs[0].metadata.index == index then [r] + rs[1..]
    else [rs[0]] + Put(rs[1..], index, r)
  }

  /** The list after `push` and a sort by index. */
  function Insert(rs: seq<RangeState>, r: RangeState): seq<RangeState> {
    if rs == [] || r.metadata.index < rs[0].metadata.index then [r] + rs
    else [rs[0]] + Insert(rs[1..], r)
  }

  function Without(rs: seq<RangeState>, index: nat): seq<RangeState> {
    if rs == [] then []
    else (if rs[0].metadata.index == index then [] else [rs[0]]) + Without(rs[1..], index)
  }

  /** What trimming does to one range: it is dropped, or its start is moved up. */
  function TrimOne(r: RangeState, offset: nat): Option<RangeState> {
    if r.metadata.end.Some? && r.metadata.end.value <= offset then None
    else if r.metadata.start < offset then Some(r.(metadata := r.metadata.TrimStart(offset)))
    else Some(r)
  }

  function Trim(rs: seq<RangeState>, offset: nat): seq<RangeState> {
    if rs == [] then []
    else (match TrimOne(rs[0], offset) case None => [] case Some(r) => [r]) + Trim(rs[1..], offset)
  }

  lemma {:induction false} WithoutNone(index: nat)
    ensures Without([], index) == []
  {
  }

  lemma {:induction false} WithoutStep(rs: seq<RangeState>, i: nat, index: nat)
    requires i < |rs|
    ensures Without(rs[i..], index) == (if rs[i].metadata.index == index then [] else [rs[i]]) + Without(rs[i + 1..], index)
  {
    assert rs[i..][1..] == rs[i + 1..];
  }

  lemma {:induction false} TrimNone(offset: nat)
    ensures Trim([], offset) == []
  {
  }

  lemma {:induction false} TrimStep(rs: seq<RangeState>, i: nat, offset: nat)
    requires i < |rs|
    ensures Trim(rs[i..], offset) == (match TrimOne(rs[i], offset) case None => [] case Some(r) => [r]) + Trim(rs[i + 1..], offset)
  {
    assert rs[i..][1..] == rs[i + 1..];
  }

  ghost predicate Sorted(rs: seq<RangeState>) {
    forall i, j :: 0 <= i < j < |rs| ==> rs[i].metadata.index < rs[j].metadata.index
  }

  lemma {:induction false} LookupAbsent(rs: seq<RangeState>, index: nat)
    requires forall i :: 0 <= i < |rs| ==> rs[i].metadata.index != index
    ensures Lookup(rs, index) == None
  {
    if rs != [] {
      LookupAbsent(rs[1..], index);
    }
  }

  lemma {:induction false} LookupIndex(rs: seq<RangeState>, index: nat)
    ensures Lookup(rs, index).Some? ==> Lookup(rs, index).value.metadata.index == index
  {
    if rs != [] {
      LookupIndex(rs[1..], index);
    }
  }

  lemma {:induction false} InsertLookup(rs: seq<RangeState>, r: RangeState, index: nat)
    requires Lookup(rs, r.metadata.index) == None
    ensures Lookup(Insert(rs, r), index) == if index == r.metadata.index then Some(r) else Lookup(rs, index)
  {
    if rs != [] && !(r.metadata.index < rs[0].metadata.index) {
      InsertLookup(rs[1..], r, index);
    }
  }

  lemma {:induction false} InsertSorted(rs: seq<RangeState>, r: RangeState)
    requires Sorted(rs) && Lookup(rs, r.metadata.index) == None
    ensures Sorted(Insert(rs, r))
    ensures forall i :: 0 <= i < |Insert(rs, r)| ==> Insert(rs, r)[i] == r || Insert(rs, r)[i] in rs
  {
    if rs != [] && !(r.metadata.index < rs[0].metadata.index) {
      InsertSorted(rs[1..], r);
      var rest := Insert(rs[1..], r);
      assert forall i :: 0 <= i < |rest| ==> rest[i] == r || rest[i] in rs[1..];
    }
  }

  lemma {:induction false} PutLookup(rs: seq<RangeState>, index: nat, r: RangeState, other: nat)
    requires r.metadata.index == index
    ensures Lookup(Put(rs, index, r), other)
         == if other == index && Lookup(rs, index).Some? then Some(r) else Lookup(rs, other)
  {
    if rs != [] && rs[0].metadata.index != index {
      PutLookup(rs[1..], index, r, other);
    }
  }

  lemma {:induction false} PutSorted(rs: seq<RangeState>, index: nat, r: RangeState)
    requires Sorted(rs) && r.metadata.index == index
    ensures Sorted(Put(rs, index, r)) && |Put(rs, index, r)| == |rs|
    ensures forall i :: 0 <= i < |rs| ==> Put(rs, index, r)[i].metadata.index == rs[i].metadata.index
  {
    if rs != [] && rs[0].metadata.index != index {
      PutSorted(rs[1..], index, r);
    }
  }

  lemma {:induction false} LookupCons(r: RangeState, rest: seq<RangeState>, index: nat)
    ensures Lookup([r] + rest, index) == if r.metadata.index == index then Some(r) else Lookup(rest, index)
  {
    assert ([r] + rest)[1..] == rest;
  }

  lemma {:induction false} WithoutLookup(rs: seq<RangeState>, index: nat, other: nat)
    ensures Lookup(Without(rs, index), other) == if other == index then None else Lookup(rs, other)
  {
    if rs != [] {
      WithoutLookup(rs[1..], index, other);
      LookupCons(rs[0], Without(rs[1..], index), other);
      if rs[0].metadata.index == index {
        assert Without(rs, index) == Without(rs[1..], index);
      }
    }
  }

  lemma {:induction false} WithoutSorted(rs: seq<RangeState>, index: nat)
    requires Sorted(rs)
    ensures Sorted(Without(rs, index))
    ensures forall i :: 0 <= i < |Without(rs, index)| ==>
                          exists j :: 0 <= j < |rs| && Without(rs, index)[i] == rs[j]
  {
    if rs != [] {
      WithoutSorted(rs[1..], index);
      var rest := Without(rs[1..], index);
      forall i | 0 <= i < |rest|
        ensures rs[0].metadata.index < rest[i].metadata.index
        ensures exists j :: 0 <= j < |rs| && rest[i] == rs[j]
      {
        var j :| 0 <= j < |rs[1..]| && rest[i] == rs[1..][j];
        assert rs[1..][j] == rs[j + 1];
      }
      assert Without(rs, index) == (if rs[0].metadata.index == index then [] else [rs[0]]) + rest;
    }
  }

  lemma {:induction false} TrimLookup(rs: seq<RangeState>, offset: nat, index: nat)
    requires Sorted(rs)
    ensures Lookup(Trim(rs, offset), index)
         == match Lookup(rs, index) case None => None case Some(r) => TrimOne(r, offset)
  {
    if rs != [] {
      TrimLookup(rs[1..], offset, index);
      if rs[0].metadata.index == index {
        LookupAbsent(rs[1..], index);
      }
      var kept := TrimOne(rs[0], offset);
      if kept.Some? {
        LookupCons(kept.value, Trim(rs[1..], offset), index);
      } else {
        assert Trim(rs, offset) == Trim(rs[1..], offset);
      }
    }
  }

  lemma {:induction false} PutAt(rs: seq<RangeState>, index: nat, pos: nat, r: RangeState)
    requires pos < |rs| && rs[pos].metadata.index == index
    requires forall i :: 0 <= i < pos ==> rs[i].metadata.index != index
    ensures Put(rs, index, r) == rs[pos := r] && Lookup(rs, index) == Some(rs[pos])
  {
    if pos > 0 {
      PutAt(rs[1..], index, pos - 1, r);
    }
  }

  lemma {:induction false} TrimSorted(rs: seq<RangeState>, offset: nat)
    requires Sorted(rs)
    ensures Sorted(Trim(rs, offset))
    ensures forall i :: 0 <= i < |Trim(rs, offset)| ==>
                          exists j :: 0 <= j < |rs| && Trim(rs, offset)[i].metadata.index == rs[j].metadata.index
  {
    if rs != [] {
      TrimSorted(rs[1..], offset);
      var rest := Trim(rs[1..], offset);
      forall i | 0 <= i < |rest|
        ensures rs[0].metadata.index < rest[i].metadata.index
        ensures exists j :: 0 <= j < |rs| && rest[i].metadata.index == rs[j].metadata.index
      {
        var j :| 0 <= j < |rs[1..]| && rest[i].metadata.index == rs[1..][j].metadata.index;
        assert rs[1..][j] == rs[j + 1];
      }
      assert Trim(rs, offset) == (match TrimOne(rs[0], offset) case None => [] case Some(r) => [r]) + rest;
    }
  }

  /** Trimming to `offset` keeps, of every range, exactly the offsets from `offset` on; a range goes exactly
      if it ends there or before, and of one that stays only the start changes. */
  lemma {:induction false} TrimExact(rs: seq<RangeState>, offset: nat, index: nat, x: nat)
    requires Sorted(rs)
    ensures (Lookup(Trim(rs, offset), index).Some? && Lookup(Trim(rs, offset), index).value.metadata.Contains(x))
       <==> (Lookup(rs, index).Some? && Lookup(rs, index).value.metadata.Contains(x) && x >= offset)
    ensures Stays(Lookup(rs, index), Lookup(Trim(rs, offset), index), offset)
  {
    TrimLookup(rs, offset, index);
  }

  ghost predicate Stays(before: Option<RangeState>, after: Option<RangeState>, offset: nat) {
    && (after.Some? <==> before.Some? && (before.value.metadata.end.Some? ==> offset < before.value.metadata.end.value))
    && (after.Some? ==> after.value == before.value.(metadata := before.value.metadata.(start := after.value.metadata.start)))
  }

  // ---- A stream -------------------------------------------------------------------

  datatype StreamRanges = StreamRanges(metadata: StreamMetadata, ranges: seq<RangeState>) {

    function CreateRange(md: RangeMetadata): StreamRanges {
      if metadata.streamId != md.streamId || Lookup(ranges, md.index).Some? then this
      else this.(ranges := Insert(ranges, NewRange(md)))
    }

    function RemoveRange(md: RangeMetadata): StreamRanges { this.(ranges := Without(ranges, md.index)) }

    function UpdateMetadata(md: StreamMetadata): StreamRanges {
      StreamRanges(md, Trim(ranges, md.startOffset))
    }

    function Seal(md: RangeMetadata): (StreamRanges, Result<RangeMetadata, ServiceError>) {
      if metadata.streamId != md.streamId then (this, Err(Internal))
      else match Lookup(ranges, md.index)
        case None => (this, Err(NotFound))
        case Some(r) => (this.(ranges := Put(ranges, md.index, r.Seal(md).0)), Ok(r.Seal(md).1))
    }
  }

  class Stream {
    var metadata: StreamMetadata
    var ranges: seq<RangeState>

    ghost function State(): StreamRanges
      reads this
    {
      StreamRanges(metadata, ranges)
    }

    constructor (md: StreamMetadata)
      ensures State() == StreamRanges(md, [])
    {
      metadata, ranges := md, [];
    }

    /** `get_range`, `has_range`: the position of the first range with that index. */
    method Find(index: nat) returns (pos: nat)
      ensures pos <= |ranges|
      ensures forall i :: 0 <= i < pos ==> ranges[i].metadata.index != index
      ensures pos < |ranges| ==> ranges[pos].metadata.index == index
      ensures pos < |ranges| <==> Lookup(ranges, index).Some?
    {
      pos := 0;
      while pos < |ranges| && ranges[pos].metadata.index != index
        invariant pos <= |ranges|
        invariant forall i :: 0 <= i < pos ==> ranges[i].metadata.index != index
      {
        pos := pos + 1;
      }
      if pos < |ranges| {
        PutAt(ranges, index, pos, ranges[pos]);
      } else {
        LookupAbsent(ranges, index);
      }
    }

    method CreateRange(md: RangeMetadata)
      requires Sorted(ranges)
      modifies this`ranges
      ensures State() == old(State()).CreateRange(md) && Sorted(ranges)
    {
      if metadata.streamId != md.streamId {
        return;
      }
      var pos := Find(md.index);
      if pos < |ranges| {
        return;
      }
      InsertSorted(ranges, NewRange(md));
      ranges := SortedPush(ranges, NewRange(md));
    }

    /** `push` followed by `sort`. */
    static method SortedPush(rs: seq<RangeState>, r: RangeState) returns (sorted: seq<RangeState>)
      requires Sorted(rs)
      ensures sorted == Insert(rs, r)
    {
      var i := 0;
      while i < |rs| && !(r.metadata.index < rs[i].metadata.index)
        invariant i <= |rs|
        invariant Insert(rs, r) == rs[..i] + Insert(rs[i..], r)
      {
        assert rs[i..][1..] == rs[i + 1..];
        assert rs[..i] + [rs[i]] == rs[..i + 1];
        i := i + 1;
      }
      sorted := rs[..i] + [r] + rs[i..];
    }

    method RemoveRange(md: RangeMetadata)
      modifies this`ranges
      ensures State() == old(State()).RemoveRange(md)
    {
      hide Without;
      var kept, i := [], 0;
      WithoutNone(md.index);
      assert ranges[0..] == ranges;
      while i < |ranges|
        invariant i <= |ranges| && ranges == old(ranges)
        invariant Without(ranges, md.index) == kept + Without(ranges[i..], md.index)
      {
        WithoutStep(ranges, i, md.index);
        if ranges[i].metadata.index != md.index {
          kept := kept + [ranges[i]];
        }
        i := i + 1;
      }
      assert ranges[i..] == [] && kept + [] == kept;
      ranges := kept;
    }

    method TrimRanges(offset: nat)
      modifies this`ranges
      ensures ranges == Trim(old(ranges), offset)
    {
      hide Trim;
      var kept, i := [], 0;
      TrimNone(offset);
      assert ranges[0..] == ranges;
      while i < |ranges|
        invariant i <= |ranges| && ranges == old(ranges)
        invariant Trim(ranges, offset) == kept + Trim(ranges[i..], offset)
      {
        TrimStep(ranges, i, offset);
        var range := ranges[i];
        i := i + 1;
        if range.metadata.end.Some? && range.metadata.end.value <= offset {
          continue;
        }
        if range.metadata.start < offset {
          range := range.(metadata := range.metadata.TrimStart(offset));
        }
        kept := kept + [range];
      }
      assert ranges[i..] == [] && kept + [] == kept;
      ranges := kept;
    }

    method UpdateMetadata(md: StreamMetadata)
      modifies this
      ensures State() == old(State()).UpdateMetadata(md)
    {
      metadata := md;
      TrimRanges(md.startOffset);
    }

    method Seal(md: RangeMetadata) returns (r: Result<RangeMetadata, ServiceError>)
      modifies this`ranges
      ensures (State(), r) == old(State()).Seal(md)
    {
      if metadata.streamId != md.streamId {
        return Err(Internal);
      }
      var pos := Find(md.index);
      if pos == |ranges| {
        return Err(NotFound);
      }
      var (range, sealed) := ranges[pos].Seal(md);
      PutAt(ranges, md.index, pos, range);
      ranges := ranges[pos := range];
      return Ok(sealed);
    }
  }

  // ---- The manager ----------------------------------------------------------------

  type Streams = map<nat, StreamRanges>

  datatype AppendError = RangeNotFound | RangeSealed | Committed | Inflight | OutOfOrder | OtherError

  function ToAppendError(e: ServiceError): AppendError {
    match e
    case OffsetCommitted => Committed
    case OffsetInFlight => Inflight
    case OffsetOutOfOrder => OutOfOrder
    case _ => OtherError
  }

  function RangeOf(m: Streams, streamId: nat, index: nat): Option<RangeState> {
    if streamId in m then Lookup(m[streamId].ranges, index) else None
  }

  function PutRange(m: Streams, streamId: nat, index: nat, r: RangeState): Streams
    requires streamId in m
  {
    m[streamId := m[streamId].(ranges := Put(m[streamId].ranges, index, r))]
  }

  function StreamOrNew(m: Streams, streamId: nat): StreamRanges {
    if streamId in m then m[streamId] else StreamRanges(StreamMetadata(streamId, 0), [])
  }

  datatype Op =
    | CreateRange(range: RangeMetadata)
    | Commit(streamId: nat, index: nat, offset: nat, lastOffsetDelta: nat)
    | Seal(request: RangeMetadata)
    | CheckBarrier(streamId: nat, index: nat, offset: nat, len: nat)
    | OnRangeEvent(kind: EventType, range: RangeMetadata)
    | OnStreamEvent(kind: EventType, stream: StreamMetadata)

  datatype Outcome =
    | Done
    | Sealed(range: RangeMetadata)
    | Refused(error: ServiceError)
    | AppendRefused(appendError: AppendError)

  function DoCommit(m: Streams, op: Op): (Streams, Outcome)
    requires op.Commit?
  {
    match RangeOf(m, op.streamId, op.index)
    case None => (m, Refused(NotFound))
    case Some(r) =>
      var (r', ok) := r.Commit(op.offset + op.lastOffsetDelta);
      (PutRange(m, op.streamId, op.index, r'), if ok.Ok? then Done else Refused(ok.error))
  }

  function DoBarrier(m: Streams, op: Op): (Streams, Outcome)
    requires op.CheckBarrier?
  {
    match RangeOf(m, op.streamId, op.index)
    case None => (m, AppendRefused(RangeNotFound))
    case Some(r) =>
      if r.window.None? then (m, AppendRefused(RangeSealed))
      else
        var (r', ok) := r.CheckBarrier(op.offset, op.len);
        (PutRange(m, op.streamId, op.index, r'), if ok.Ok? then Done else AppendRefused(ToAppendError(ok.error)))
  }

  /** A missing stream or range is created first. */
  function DoSeal(m: Streams, md: RangeMetadata): (Streams, Outcome) {
    var (s, r) := StreamOrNew(m, md.streamId).CreateRange(md).Seal(md);
    (m[md.streamId := s], if r.Ok? then Sealed(r.value) else Refused(r.error))
  }

  function DoRangeEvent(m: Streams, kind: EventType, md: RangeMetadata): Streams {
    match kind
    case Added | Modified | Listed =>
      var s := StreamOrNew(m, md.streamId);
      (match Lookup(s.ranges, md.index)
       case Some(r) => m[md.streamId := s.(ranges := Put(s.ranges, md.index, r.(metadata := md)))]
       case None => m[md.streamId := s.CreateRange(md)])
    case Deleted => if md.streamId in m then m[md.streamId := m[md.streamId].RemoveRange(md)] else m
    case _ => m
  }

  function DoStreamEvent(m: Streams, kind: EventType, md: StreamMetadata): Streams {
    match kind
    case Added | Modified | Listed =>
      m[md.streamId := if md.streamId in m then m[md.streamId].UpdateMetadata(md) else StreamRanges(md, [])]
    case Deleted => m - {md.streamId}
    case _ => m
  }

  function Do(m: Streams, op: Op): (Streams, Outcome) {
    match op
    case CreateRange(md) => (m[md.streamId := StreamOrNew(m, md.streamId).CreateRange(md)], Done)
    case Commit(_, _, _, _) => DoCommit(m, op)
    case Seal(md) => DoSeal(m, md)
    case CheckBarrier(_, _, _, _) => DoBarrier(m, op)
    case OnRangeEvent(kind, md) => (DoRangeEvent(m, kind, md), Done)
    case OnStreamEvent(kind, md) => (DoStreamEvent(m, kind, md), Done)
  }

  class DefaultRangeManager {
    var streams: Streams

    constructor ()
      ensures streams == map[]
    {
      streams := map[];
    }

    method CreateRange(md: RangeMetadata)
      modifies this
      ensures streams == Do(old(streams), Op.CreateRange(md)).0
    {
      if md.streamId in streams {
        streams := streams[md.streamId := streams[md.streamId].CreateRange(md)];
      } else {
        var stream := StreamRanges(StreamMetadata(md.streamId, 0), []);
        stream := stream.CreateRange(md);
        streams := streams[md.streamId := stream];
      }
    }

    method Commit(streamId: nat, index: nat, offset: nat, lastOffsetDelta: nat) returns (r: Outcome)
      modifies this
      ensures (streams, r) == Do(old(streams), Op.Commit(streamId, index, offset, lastOffsetDelta))
    {
      var range := RangeOf(streams, streamId, index);
      if range.None? {
        return Refused(NotFound);
      }
      var (range', ok) := range.value.Commit(offset + lastOffsetDelta);
      streams := PutRange(streams, streamId, index, range');
      return if ok.Ok? then Done else Refused(ok.error);
    }

    method Seal(md: RangeMetadata) returns (r: Outcome)
      modifies this
      ensures (streams, r) == Do(old(streams), Op.Seal(md))
    {
      if md.streamId in streams {
        var stream := streams[md.streamId];
        if Lookup(stream.ranges, md.index).None? {
          stream := stream.CreateRange(md);
        }
        var (stream', sealed) := stream.Seal(md);
        streams := streams[md.streamId := stream'];
        return if sealed.Ok? then Sealed(sealed.value) else Refused(sealed.error);
      }
      var stream := StreamRanges(StreamMetadata(md.streamId, 0), []).CreateRange(md);
      // The range was just created, so this seal finds it.
      var (stream', sealed) := stream.Seal(md);
      streams := streams[md.streamId := stream'];
      return Sealed(sealed.value);
    }

    method CheckBarrier(streamId: nat, index: nat, offset: nat, len: nat) returns (r: Outcome)
      modifies this
      ensures (streams, r) == Do(old(streams), Op.CheckBarrier(streamId, index, offset, len))
    {
      var range := RangeOf(streams, streamId, index);
      if range.None? {
        return AppendRefused(RangeNotFound);
      }
      if range.value.window.None? {
        return AppendRefused(RangeSealed);
      }
      var (range', ok) := range.value.CheckBarrier(offset, len);
      streams := PutRange(streams, streamId, index, range');
      return if ok.Ok? then Done else AppendRefused(ToAppendError(ok.error));
    }

    method OnRangeEvent(kind: EventType, md: RangeMetadata)
      modifies this
      ensures streams == DoRangeEvent(old(streams), kind, md)
    {
      match kind {
        case Added | Modified | Listed =>
          if md.streamId !in streams {
            streams := streams[md.streamId := StreamRanges(StreamMetadata(md.streamId, 0), [])];
          }
          var stream := streams[md.streamId];
          var range := Lookup(stream.ranges, md.index);
          if range.Some? {
            stream := stream.(ranges := Put(stream.ranges, md.index, range.value.(metadata := md)));
          } else {
            stream := stream.CreateRange(md);
          }
          streams := streams[md.streamId := stream];
        case Deleted =>
          if md.streamId in streams {
            streams := streams[md.streamId := streams[md.streamId].RemoveRange(md)];
          }
        case _ =>
      }
    }

    method OnStreamEvent(kind: EventType, md: StreamMetadata)
      modifies this
      ensures streams == DoStreamEvent(old(streams), kind, md)
    {
      match kind {
        case Added | Modified | Listed =>
          if md.streamId in streams {
            streams := streams[md.streamId := streams[md.streamId].UpdateMetadata(md)];
          } else {
            streams := streams[md.streamId := StreamRanges(md, [])];
          }
        case Deleted =>
          streams := streams - {md.streamId};
        case _ =>
      }
    }
  }

  // ---- What one operation means for the ranges ---------------------------------------

  /** The range an operation is about; a stream event is about all ranges of its stream. */
  predicate IsAbout(op: Op, streamId: nat, index: nat) {
    match op
    case CreateRange(md) => (md.streamId, md.index) == (streamId, index)
    case Commit(s, i, _, _) => (s, i) == (streamId, index)
    case Seal(md) => (md.streamId, md.index) == (streamId, index)
    case CheckBarrier(s, i, _, _) => (s, i) == (streamId, index)
    case OnRangeEvent(_, md) => (md.streamId, md.index) == (streamId, index)
    case OnStreamEvent(_, md) => md.streamId == streamId
  }

  /** No operation touches a range it is not about. */
  lemma {:induction false} OnlyItsRange(m: Streams, op: Op, streamId: nat, index: nat)
    requires !IsAbout(op, streamId, index)
    ensures RangeOf(Do(m, op).0, streamId, index) == RangeOf(m, streamId, index)
  {
    match op {
      case CreateRange(md) => CreateAt(StreamOrNew(m, md.streamId), md, index);
      case Commit(id, at, offset, delta) =>
        var r := RangeOf(m, id, at);
        if r.Some? {
          LookupIndex(m[id].ranges, at);
          PutLookup(m[id].ranges, at, r.value.Commit(offset + delta).0, index);
        }
      case Seal(md) =>
        var s := StreamOrNew(m, md.streamId);
        CreateAt(s, md, index);
        SealAt(s.CreateRange(md), md, index);
      case CheckBarrier(id, at, offset, len) =>
        var r := RangeOf(m, id, at);
        if r.Some? {
          LookupIndex(m[id].ranges, at);
          PutLookup(m[id].ranges, at, r.value.CheckBarrier(offset, len).0, index);
        }
      case OnRangeEvent(kind, md) =>
        var s := StreamOrNew(m, md.streamId);
        CreateAt(s, md, index);
        WithoutLookup(s.ranges, md.index, index);
        var r := Lookup(s.ranges, md.index);
        if r.Some? {
          PutLookup(s.ranges, md.index, r.value.(metadata := md), index);
        }
      case OnStreamEvent(_, _) =>
    }
  }

  lemma {:induction false} CreateAt(s: StreamRanges, md: RangeMetadata, index: nat)
    ensures Lookup(s.CreateRange(md).ranges, index)
         == if index == md.index && s.metadata.streamId == md.streamId && Lookup(s.ranges, index).None? then Some(NewRange(md))
            else Lookup(s.ranges, index)
  {
    if Lookup(s.ranges, md.index).None? {
      InsertLookup(s.ranges, NewRange(md), index);
    }
  }

  lemma {:induction false} SealAt(s: StreamRanges, md: RangeMetadata, index: nat)
    ensures index != md.index ==> Lookup(s.Seal(md).0.ranges, index) == Lookup(s.ranges, index)
    ensures s.metadata.streamId == md.streamId && Lookup(s.ranges, md.index).Some? ==>
              var r := Lookup(s.ranges, md.index).value;
              s.Seal(md).1 == Ok(r.Seal(md).1) && Lookup(s.Seal(md).0.ranges, md.index) == Some(r.Seal(md).0)
  {
    var r := Lookup(s.ranges, md.index);
    LookupIndex(s.ranges, md.index);
    if r.Some? {
      PutLookup(s.ranges, md.index, r.value.Seal(md).0, index);
      PutLookup(s.ranges, md.index, r.value.Seal(md).0, md.index);
    }
  }

  /** An append gets through exactly at the next offset of an unsealed range, and moves that offset;
      otherwise it is told why, and nothing changes. */
  lemma {:induction false} AppendAccepted(m: Streams, streamId: nat, index: nat, offset: nat, len: nat)
    ensures var (m', out) := Do(m, Op.CheckBarrier(streamId, index, offset, len));
            var before, after := RangeOf(m, streamId, index), RangeOf(m', streamId, index);
            && (out == Done
                <==> before.Some? && before.value.window.Some?
                     && before.value.window.value.committed <= offset == before.value.window.value.next)
            && (out == Done ==> after == Some(before.value.(window := Some(WindowState(offset + len, before.value.window.value.committed)))))
            && (out != Done ==> after == before)
            && (out == AppendRefused(RangeNotFound) <==> before.None?)
            && (out == AppendRefused(RangeSealed) <==> before.Some? && before.value.window.None?)
            && (before.Some? && before.value.window.Some? ==>
                  var w := before.value.window.value;
                  && (out == AppendRefused(Committed) <==> offset < w.committed)
                  && (out == AppendRefused(Inflight) <==> w.committed <= offset < w.next)
                  && (out == AppendRefused(OutOfOrder) <==> w.committed <= offset && w.next < offset))
  {
    var r := RangeOf(m, streamId, index);
    if r.Some? {
      LookupIndex(m[streamId].ranges, index);
      PutLookup(m[streamId].ranges, index, r.value.CheckBarrier(offset, len).0, index);
    }
  }

  /** A commit gets through exactly on an unsealed range; from then on the range reports at least that
      offset, once it has reached the range start. */
  lemma {:induction false} CommitAccepted(m: Streams, streamId: nat, index: nat, offset: nat, delta: nat)
    ensures var (m', out) := Do(m, Op.Commit(streamId, index, offset, delta));
            var before, after := RangeOf(m, streamId, index), RangeOf(m', streamId, index);
            && (out == Done <==> before.Some? && before.value.window.Some?)
            && (out == Refused(NotFound) <==> before.None?)
            && (out == Refused(AlreadySealed) <==> before.Some? && before.value.window.None?)
            && (out != Done ==> after == before)
            && (out == Done ==> after.Some? && (after.value.committed.Some? ==>
                  || after.value.committed == before.value.committed
                  || after.value.committed.value in {offset + delta, before.value.window.value.committed}))
            && (out == Done && before.value.metadata.start <= offset + delta ==>
                  after.Some? && after.value.committed.Some? && offset + delta <= after.value.committed.value)
            && (before.Some? && before.value.committed.Some? ==>
                  after.Some? && after.value.committed.Some? && before.value.committed.value <= after.value.committed.value)
  {
    var r := RangeOf(m, streamId, index);
    if r.Some? {
      LookupIndex(m[streamId].ranges, index);
      PutLookup(m[streamId].ranges, index, r.value.Commit(offset + delta).0, index);
    }
  }

  /** A seal always succeeds, creating what is missing: it reports what the range had committed, or its
      start, and the range is sealed with that. */
  lemma {:induction false} SealAccepted(m: Streams, md: RangeMetadata)
    requires Inv(m)
    ensures var (m', out) := Do(m, Op.Seal(md));
            var before := RangeOf(m, md.streamId, md.index);
            var r := if before.Some? then before.value else NewRange(md);
            && out == Sealed(md.SetEnd(if r.committed.Some? then r.committed.value else r.metadata.start))
            && IsSealed(m', md.streamId, md.index, r.committed)
  {
    var s := StreamOrNew(m, md.streamId);
    CreateAt(s, md, md.index);
    SealAt(s.CreateRange(md), md, md.index);
  }

  /** A created range is new or as it was; a range event stores the metadata without touching what was
      appended, or removes the range. */
  lemma {:induction false} RangeEventApplied(m: Streams, kind: EventType, md: RangeMetadata)
    requires Inv(m)
    ensures var before := RangeOf(m, md.streamId, md.index);
            var created := RangeOf(Do(m, Op.CreateRange(md)).0, md.streamId, md.index);
            var after := RangeOf(Do(m, OnRangeEvent(kind, md)).0, md.streamId, md.index);
            && created == Some(if before.Some? then before.value else NewRange(md))
            && (kind in {Added, Modified, Listed} ==>
                  after == Some(if before.Some? then before.value.(metadata := md) else NewRange(md)))
            && (kind == Deleted ==> after == None)
            && (kind in {NoEvent, ListFinished, Reset} ==> after == before)
            && (kind in {Added, Modified, Listed} ==>
                  var m' := Do(m, OnRangeEvent(kind, md)).0;
                  && md.streamId in m'
                  && m'[md.streamId].metadata == if md.streamId in m then m[md.streamId].metadata else StreamMetadata(md.streamId, 0))
  {
    var s := StreamOrNew(m, md.streamId);
    CreateAt(s, md, md.index);
    WithoutLookup(s.ranges, md.index, md.index);
    var r := Lookup(s.ranges, md.index);
    if r.Some? {
      LookupIndex(s.ranges, md.index);
      PutLookup(s.ranges, md.index, r.value.(metadata := md), md.index);
    }
  }

  /** Of a stream's ranges a stream event keeps exactly the offsets from the new start on, and what was
      appended to them; a deleted stream has no range. */
  lemma {:induction false} StreamEventApplied(m: Streams, kind: EventType, md: StreamMetadata, index: nat, x: nat)
    requires Inv(m)
    ensures var before := RangeOf(m, md.streamId, index);
            var after := RangeOf(Do(m, OnStreamEvent(kind, md)).0, md.streamId, index);
            && (kind in {Added, Modified, Listed} ==>
                  && (after.Some? && after.value.metadata.Contains(x)
                      <==> before.Some? && before.value.metadata.Contains(x) && md.startOffset <= x)
                  && Stays(before, after, md.startOffset)
                  && var m' := Do(m, OnStreamEvent(kind, md)).0; md.streamId in m' && m'[md.streamId].metadata == md)
            && (kind == Deleted ==> after == None)
            && (kind in {NoEvent, ListFinished, Reset} ==> after == before)
  {
    if md.streamId in m {
      hide Lookup, Trim, Sorted;
      TrimLookup(m[md.streamId].ranges, md.startOffset, index);
    }
  }

  // ---- Sealing is permanent -------------------------------------------------------

  /** Streams are stored under their own id and their ranges are strictly sorted by index. */
  ghost predicate Inv(m: Streams) {
    forall id :: id in m ==> m[id].metadata.streamId == id && Sorted(m[id].ranges)
  }

  ghost predicate IsSealed(m: Streams, streamId: nat, index: nat, committed: Option<nat>) {
    var r := RangeOf(m, streamId, index);
    r.Some? && r.value.window.None? && r.value.committed == committed
  }

  lemma {:induction false} CreateKeeps(s: StreamRanges, md: RangeMetadata, index: nat)
    requires Sorted(s.ranges)
    ensures Sorted(s.CreateRange(md).ranges)
    ensures Lookup(s.ranges, index).Some? ==> Lookup(s.CreateRange(md).ranges, index) == Lookup(s.ranges, index)
  {
    if Lookup(s.ranges, md.index).None? {
      InsertSorted(s.ranges, NewRange(md));
      InsertLookup(s.ranges, NewRange(md), index);
    }
  }

  lemma {:induction false} SealKeeps(s: StreamRanges, md: RangeMetadata, index: nat)
    requires Sorted(s.ranges)
    ensures Sorted(s.Seal(md).0.ranges)
    ensures var before, after := Lookup(s.ranges, index), Lookup(s.Seal(md).0.ranges, index);
            before.Some? ==> after.Some? && after.value.committed == before.value.committed
                             && (before.value.window.None? ==> after.value.window.None?)
  {
    var r := Lookup(s.ranges, md.index);
    LookupIndex(s.ranges, md.index);
    if r.Some? {
      PutSorted(s.ranges, md.index, r.value.Seal(md).0);
      PutLookup(s.ranges, md.index, r.value.Seal(md).0, index);
    }
  }

  lemma {:induction false} TrimKeeps(s: StreamRanges, md: StreamMetadata, index: nat)
    requires Sorted(s.ranges)
    ensures Sorted(s.UpdateMetadata(md).ranges)
    ensures var before, after := Lookup(s.ranges, index), Lookup(s.UpdateMetadata(md).ranges, index);
            after.Some? ==> before.Some? && after.value.committed == before.value.committed
                            && after.value.window == before.value.window
  {
    TrimSorted(s.ranges, md.startOffset);
    TrimLookup(s.ranges, md.startOffset, index);
  }

  lemma {:induction false} RemoveKeeps(s: StreamRanges, md: RangeMetadata, index: nat)
    requires Sorted(s.ranges)
    ensures Sorted(s.RemoveRange(md).ranges)
    ensures var after := Lookup(s.RemoveRange(md).ranges, index); after.Some? ==> after == Lookup(s.ranges, index)
  {
    WithoutSorted(s.ranges, md.index);
    WithoutLookup(s.ranges, md.index, index);
  }

  /** A stream update that keeps sortedness and keeps a sealed range sealed while it is there. */
  ghost predicate Keeps(s: StreamRanges, t: StreamRanges, index: nat) {
    && Sorted(t.ranges)
    && var before, after := Lookup(s.ranges, index), Lookup(t.ranges, index);
       before.Some? && before.value.window.None? && after.Some? ==>
         after.value.window.None? && after.value.committed == before.value.committed
  }

  lemma {:induction false} UpdateKeeps(m: Streams, id: nat, t: StreamRanges, streamId: nat, index: nat)
    requires Inv(m) && Keeps(StreamOrNew(m, id), t, index) && t.metadata.streamId == id
    ensures Inv(m[id := t])
    ensures forall c :: IsSealed(m, streamId, index, c) && RangeOf(m[id := t], streamId, index).Some? ==>
                          IsSealed(m[id := t], streamId, index, c)
  {
  }

  lemma {:induction false} ReplicaKeeps(s: StreamRanges, at: nat, r: RangeState, index: nat)
    requires Sorted(s.ranges) && Lookup(s.ranges, at).Some?
    requires r.metadata.index == at
    requires var before := Lookup(s.ranges, at).value;
             before.window.None? ==> r.window.None? && r.committed == before.committed
    ensures Keeps(s, s.(ranges := Put(s.ranges, at, r)), index)
  {
    PutSorted(s.ranges, at, r);
    PutLookup(s.ranges, at, r, index);
  }

  lemma {:induction false} RequestKeeps(m: Streams, op: Op, streamId: nat, index: nat)
    requires Inv(m) && (op.CreateRange? || op.Commit? || op.Seal? || op.CheckBarrier?)
    ensures Inv(Do(m, op).0)
    ensures forall c :: IsSealed(m, streamId, index, c) && RangeOf(Do(m, op).0, streamId, index).Some? ==>
                          IsSealed(Do(m, op).0, streamId, index, c)
  {
    match op {
      case CreateRange(md) =>
        var s := StreamOrNew(m, md.streamId);
        CreateKeeps(s, md, index);
        UpdateKeeps(m, md.streamId, s.CreateRange(md), streamId, index);
      case Seal(md) =>
        var s := StreamOrNew(m, md.streamId);
        CreateKeeps(s, md, index);
        SealKeeps(s.CreateRange(md), md, index);
        UpdateKeeps(m, md.streamId, s.CreateRange(md).Seal(md).0, streamId, index);
      case Commit(id, at, offset, delta) =>
        var r := RangeOf(m, id, at);
        if r.Some? {
          LookupIndex(m[id].ranges, at);
          ReplicaKeeps(m[id], at, r.value.Commit(offset + delta).0, index);
          UpdateKeeps(m, id, PutRange(m, id, at, r.value.Commit(offset + delta).0)[id], streamId, index);
        }
      case CheckBarrier(id, at, offset, len) =>
        var r := RangeOf(m, id, at);
        if r.Some? {
          LookupIndex(m[id].ranges, at);
          ReplicaKeeps(m[id], at, r.value.CheckBarrier(offset, len).0, index);
          UpdateKeeps(m, id, PutRange(m, id, at, r.value.CheckBarrier(offset, len).0)[id], streamId, index);
        }
    }
  }

  lemma {:induction false} RangeEventKeeps(m: Streams, kind: EventType, md: RangeMetadata, streamId: nat, index: nat)
    requires Inv(m)
    ensures var m' := DoRangeEvent(m, kind, md);
            && Inv(m')
            && forall c :: IsSealed(m, streamId, index, c) && RangeOf(m', streamId, index).Some? ==>
                             IsSealed(m', streamId, index, c)
  {
    var s := StreamOrNew(m, md.streamId);
    match kind {
      case Added | Modified | Listed =>
        var r := Lookup(s.ranges, md.index);
        if r.Some? {
          var t := r.value.(metadata := md);
          ReplicaKeeps(s, md.index, t, index);
          UpdateKeeps(m, md.streamId, s.(ranges := Put(s.ranges, md.index, t)), streamId, index);
        } else {
          CreateKeeps(s, md, index);
          UpdateKeeps(m, md.streamId, s.CreateRange(md), streamId, index);
        }
      case Deleted =>
        RemoveKeeps(s, md, index);
        UpdateKeeps(m, md.streamId, s.RemoveRange(md), streamId, index);
      case _ =>
    }
  }

  lemma {:induction false} StreamEventKeeps(m: Streams, kind: EventType, md: StreamMetadata, streamId: nat, index: nat)
    requires Inv(m)
    ensures var m' := DoStreamEvent(m, kind, md);
            && Inv(m')
            && forall c :: IsSealed(m, streamId, index, c) && RangeOf(m', streamId, index).Some? ==>
                             IsSealed(m', streamId, index, c)
  {
    var s := StreamOrNew(m, md.streamId);
    TrimKeeps(s, md, index);
    UpdateKeeps(m, md.streamId, s.UpdateMetadata(md), streamId, index);
  }

  function DoAll(m: Streams, ops: seq<Op>): Streams
    decreases |ops|
  {
    if ops == [] then m else DoAll(Do(m, ops[0]).0, ops[1..])
  }

  /** The range is still there after every operation. */
  predicate PresentThroughout(m: Streams, ops: seq<Op>, streamId: nat, index: nat)
    decreases |ops|
  {
    ops == [] || (RangeOf(Do(m, ops[0]).0, streamId, index).Some?
                  && PresentThroughout(Do(m, ops[0]).0, ops[1..], streamId, index))
  }

  /** No append and no commit for the range got through. */
  predicate NoneAccepted(m: Streams, ops: seq<Op>, streamId: nat, index: nat)
    decreases |ops|
  {
    ops == [] || ((ops[0].CheckBarrier? && ops[0].streamId == streamId && ops[0].index == index ==>
                     Do(m, ops[0]).1 == AppendRefused(RangeSealed))
                  && (ops[0].Commit? && ops[0].streamId == streamId && ops[0].index == index ==>
                        Do(m, ops[0]).1 == Refused(AlreadySealed))
                  && NoneAccepted(Do(m, ops[0]).0, ops[1..], streamId, index))
  }

  lemma {:induction false} StepKeeps(m: Streams, op: Op, streamId: nat, index: nat)
    requires Inv(m)
    ensures Inv(Do(m, op).0)
    ensures forall c :: IsSealed(m, streamId, index, c) && RangeOf(Do(m, op).0, streamId, index).Some? ==>
                          IsSealed(Do(m, op).0, streamId, index, c)
  {
    match op {
      case OnRangeEvent(kind, md) => RangeEventKeeps(m, kind, md, streamId, index);
      case OnStreamEvent(kind, md) => StreamEventKeeps(m, kind, md, streamId, index);
      case _ => RequestKeeps(m, op, streamId, index);
    }
  }

  /** Once a range's window is gone, no run of requests and events that leaves the range in place
      accepts an append or a commit for it or changes its committed offset. */
  lemma {:induction false} SealIsPermanent(m: Streams, ops: seq<Op>, streamId: nat, index: nat, committed: Option<nat>)
    requires Inv(m) && IsSealed(m, streamId, index, committed) && PresentThroughout(m, ops, streamId, index)
    ensures IsSealed(DoAll(m, ops), streamId, index, committed)
    ensures NoneAccepted(m, ops, streamId, index)
    decreases |ops|
  {
    if ops != [] {
      StepKeeps(m, ops[0], streamId, index);
      SealIsPermanent(Do(m, ops[0]).0, ops[1..], streamId, index, committed);
    }
  }

  /** Every run keeps every stream's ranges strictly sorted by index. */
  lemma {:induction false} RangesStaySorted(m: Streams, ops: seq<Op>)
    requires Inv(m)
    ensures Inv(DoAll(m, ops))
    decreases |ops|
  {
    if ops != [] {
      StepKeeps(m, ops[0], 0, 0);
      RangesStaySorted(Do(m, ops[0]).0, ops[1..]);
    }
  }
}
