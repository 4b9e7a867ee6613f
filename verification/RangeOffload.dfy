/**
 Uploading a range as objects: the multi-part writer, the task that completes an object, and the
 loop that feeds fetched records to the writer (components/object-storage/src/range_offload.rs,
 components/object-storage/src/range_accumulator.rs).

 Retries against the object store are invisible here: each upload ends in success.
 */
module RangeOffload {
  import opened Prelude
  import opened ObjectChain
  import opened RecordFormat
  import opened SparseIndex
  import opened OffloadProgress
  import opened ArrivedPieces

  const SPARSE_SIZE: nat := 16 * 1024 * 1024

  /** Fetched records, in the buffers they came in. */
  type Payload = seq<bytes>

  /** A message to the task that uploads a multi-part object, with the index entries of its data; one
      without data closes the object. */
  datatype Event = Event(data: Payload, index: seq<Entry>, endOffset: nat) {
    predicate HasData() { Join(data) != [] }
  }

  const CLOSE := Event([], [], 0)

  /** An upload that needs nothing more: a payload large enough for an object of its own, or the
      messages of a closed multi-part object. */
  datatype Upload = Whole(start: nat, payload: Payload, index: seq<Entry>, endOffset: nat) | Parts(start: nat, events: seq<Event>)

  datatype Owner = Owner(streamId: nat, rangeIndex: nat, epoch: nat, objectSize: nat)

  // ---- What a payload says --------------------------------------------------------

  /** The sparse index of the payload can be generated; otherwise the writer aborts. */
  predicate Readable(payload: Payload, decode: Decoder, start: nat, pass: nat) {
    Indexable(Join(payload), decode, start, pass, SPARSE_SIZE)
  }

  /** The end offset that is read for a payload: that of its last record, unless a record is as long as
      4 GiB. */
  function PayloadEnd(payload: Payload, decode: Decoder): nat {
    EndAt(Join(payload), LastPos(Split(Join(payload)).GetOr([])), decode).GetOr(0)
  }

  /** The pass-through size that is left for the next part. */
  function PassLeft(payload: Payload, decode: Decoder, start: nat, pass: nat): nat {
    Pass(RecsOf(Split(Join(payload)).GetOr([]), decode, start), pass, SPARSE_SIZE)
  }

  /** The index entries of a payload. */
  function IndexLeft(payload: Payload, decode: Decoder, start: nat, pass: nat): seq<Entry> {
    Index(RecsOf(Split(Join(payload)).GetOr([]), decode, start), pass, SPARSE_SIZE)
  }

  // ---- The object a sequence of messages makes --------------------------------------

  datatype Folded = Folded(end: nat, data: bytes)

  function Fold(events: seq<Event>, start: nat): Folded {
    if events == [] then Folded(start, [])
    else
      var before, e := Fold(events[..|events| - 1], start), events[|events| - 1];
      Folded(Max(before.end, e.endOffset), before.data + Join(e.data))
  }

  /** The metadata that is committed; the two 32-bit fields truncate. */
  function CommitOf(owner: Owner, start: nat, end: nat, len: nat): ObjectMetadata {
    ObjectMetadata(owner.streamId, owner.rangeIndex, owner.epoch, start, (end - start) % U32_BASE, len % U32_BASE, [])
  }

  function Committed(owner: Owner, u: Upload): ObjectMetadata {
    match u
    case Whole(start, payload, _, end) => CommitOf(owner, start, end, |Join(payload)|)
    case Parts(start, events) =>
      var f := Fold(events, start);
      CommitOf(owner, start, f.end, |f.data|)
  }

  /** The data block of the object. */
  function DataOf(u: Upload): bytes {
    match u
    case Whole(_, payload, _, _) => Join(payload)
    case Parts(start, events) => Fold(events, start).data
  }

  /** The index block of the object. */
  function IndexOf(u: Upload): seq<Entry> {
    match u
    case Whole(_, _, index, _) => index
    case Parts(_, events) => Indexes(events)
  }

  function Indexes(events: seq<Event>): seq<Entry> {
    if events == [] then [] else Indexes(events[..|events| - 1]) + events[|events| - 1].index
  }

  lemma {:induction false} IndexesSnoc(events: seq<Event>, e: Event)
    ensures Indexes([]) == [] && Indexes(events + [e]) == Indexes(events) + e.index
  {
    assert (events + [e])[..|events|] == events;
  }

  lemma {:induction false} FoldSnoc(events: seq<Event>, e: Event, start: nat)
    ensures var f := Fold(events, start);
            Fold(events + [e], start) == Folded(Max(f.end, e.endOffset), f.data + Join(e.data))
  {
    assert (events + [e])[..|events|] == events;
  }

  lemma {:induction false} FoldNone(start: nat)
    ensures Fold([], start) == Folded(start, [])
  {
  }

  lemma {:induction false} FoldedUpload(owner: Owner, u: Upload, f: Folded)
    requires u.Parts? && Fold(u.events, u.start) == f
    ensures Committed(owner, u) == CommitOf(owner, u.start, f.end, |f.data|) && DataOf(u) == f.data
  {
  }

  /** The first message without data is the last one. */
  ghost predicate Closed(events: seq<Event>) {
    && events != [] && !events[|events| - 1].HasData()
    && forall i :: 0 <= i < |events| - 1 ==> events[i].HasData()
  }

  /** `MultiPartObject::write_loop`: consumes messages up to the first one without data and then
      commits; until then nothing is committed. `k` is how many messages it took. */
  method WriteLoop(owner: Owner, start: nat, events: seq<Event>) returns (r: Option<(ObjectMetadata, bytes, seq<Entry>)>, ghost k: nat)
    ensures r.None? <==> forall i :: 0 <= i < |events| ==> events[i].HasData()
    ensures r.Some? ==> k <= |events| && Closed(events[..k])
    ensures r.Some? ==>
              var u := Parts(start, events[..k]);
              && r.value == (Committed(owner, u), DataOf(u), IndexOf(u))
              && (r.value.0.streamId, r.value.0.rangeIndex, r.value.0.epoch) == (owner.streamId, owner.rangeIndex, owner.epoch)
  {
    hide Committed, DataOf, Fold, Join, Indexes;
    var data: bytes := [];
    var sparseIndex: seq<Entry> := [];
    var end := start;
    assert events[..0] == [];
    FoldNone(start);
    IndexesSnoc([], CLOSE);
    var i: nat := 0;
    while i < |events|
      invariant i <= |events|
      invariant forall j :: 0 <= j < i ==> events[j].HasData()
      invariant Fold(events[..i], start) == Folded(end, data) && Indexes(events[..i]) == sparseIndex
    {
      var event := events[i];
      FoldSnoc(events[..i], event, start);
      IndexesSnoc(events[..i], event);
      assert events[..i] + [event] == events[..i + 1];
      sparseIndex := sparseIndex + event.index;
      if event.endOffset > end {
        end := event.endOffset;
      }
      var part := Join(event.data);
      data := data + part;
      if part == [] {
        FoldedUpload(owner, Parts(start, events[..i + 1]), Folded(end, data));
        return Some((CommitOf(owner, start, end, |data|), data, sparseIndex)), i + 1;
      }
      i := i + 1;
    }
    return None, i;
  }

  /** `Object::write0`: one payload, one object. */
  method WriteWhole(owner: Owner, start: nat, payload: Payload, decode: Decoder) returns (r: Option<(nat, ObjectMetadata, bytes, seq<Entry>)>)
    requires |Join(payload)| <= ISIZE_MAX
    ensures r.Some? <==> Readable(payload, decode, start, 0) && start <= PayloadEnd(payload, decode)
    ensures r.Some? ==>
              var u := Whole(start, payload, IndexLeft(payload, decode, start, 0), PayloadEnd(payload, decode));
              && r.value == (PayloadEnd(payload, decode), Committed(owner, u), DataOf(u), IndexOf(u))
              && (r.value.1.streamId, r.value.1.rangeIndex, r.value.1.epoch) == (owner.streamId, owner.rangeIndex, owner.epoch)
  {
    hide Join, Split, Index, Pass, RecsOf, EndAt;
    var indexed := GenSparseIndex(start, payload, 0, SPARSE_SIZE, decode);
    if indexed.Err? {
      return None;
    }
    var end := indexed.value.1;
    if end < start {
      return None;  // the difference overflows
    }
    return Some((end, CommitOf(owner, start, end, |Join(payload)|), Join(payload), Entries(indexed.value.0)));
  }

  // ---- The writer -----------------------------------------------------------------

  datatype MultiState = MultiState(start: nat, size: nat, pass: nat, events: seq<Event>) {
    /** The part is readable and the object size does not overflow; otherwise the writer aborts. */
    predicate Accepts(part: Payload, decode: Decoder) {
      size + AsU32(|Join(part)|) <= U32_MAX && Readable(part, decode, start, pass)
    }

    function PartEvent(part: Payload, decode: Decoder): Event {
      Event(part, IndexLeft(part, decode, start, pass), PayloadEnd(part, decode))
    }

    function Written(part: Payload, decode: Decoder): MultiState {
      MultiState(start, size + AsU32(|Join(part)|), PassLeft(part, decode, start, pass),
                 events + [PartEvent(part, decode)])
    }

    function Close(): Upload { Parts(start, events + [CLOSE]) }
  }

  datatype OffloadState = OffloadState(multi: Option<MultiState>, uploads: seq<Upload>) {
    /** Where the object that takes the next record starts. */
    function ObjectStart(next: nat): nat { if multi.Some? then multi.value.start else next }

    /** The object in flight takes the payload, or it makes an object of its own, or opens one. */
    predicate Accepts(objectSize: nat, start: nat, payload: Payload, decode: Decoder) {
      if multi.Some? then multi.value.Accepts(payload, decode)
      else Readable(payload, decode, start, 0) && (AsU32(|Join(payload)|) >= objectSize ==> start <= PayloadEnd(payload, decode))
    }

    function Write(objectSize: nat, start: nat, payload: Payload, decode: Decoder): OffloadState {
      if multi.Some? then
        var m := multi.value.Written(payload, decode);
        if m.size >= objectSize then OffloadState(None, uploads + [m.Close()]) else OffloadState(Some(m), uploads)
      else if AsU32(|Join(payload)|) >= objectSize then
        OffloadState(None, uploads + [Whole(start, payload, IndexLeft(payload, decode, start, 0), PayloadEnd(payload, decode))])
      else
        OffloadState(Some(MultiState(start, 0, 0, []).Written(payload, decode)), uploads)
    }

    function Flush(): OffloadState {
      if multi.Some? then OffloadState(None, uploads + [multi.value.Close()]) else this
    }
  }

  class MultiPartObject {
    const startOffset: nat
    const objectSize: nat
    var size: u32
    var lastPassThroughSize: u32
    var sent: seq<Event>

    ghost function View(): MultiState
      reads this
    {
      MultiState(startOffset, size, lastPassThroughSize, sent)
    }

    constructor (startOffset: nat, objectSize: nat)
      ensures View() == MultiState(startOffset, 0, 0, []) && this.objectSize == objectSize
    {
      this.startOffset := startOffset;
      this.objectSize := objectSize;
      size, lastPassThroughSize, sent := 0, 0, [];
    }

    /** Whether the object is full, and the end offset of the part. */
    method Write(part: Payload, decode: Decoder) returns (r: Option<(bool, nat)>)
      requires |Join(part)| <= ISIZE_MAX
      modifies this
      ensures r.Some? <==> old(View()).Accepts(part, decode)
      ensures r.Some? ==> View() == old(View()).Written(part, decode)
      ensures r.Some? ==> r.value == (size >= objectSize, PayloadEnd(part, decode))
    {
      hide Join, Split, Index, Pass, RecsOf, EndAt, AsU32;
      var partLength := AsU32(|Join(part)|);
      if size + partLength > U32_MAX {
        return None;
      }
      size := size + partLength;
      var indexed := GenSparseIndex(startOffset, part, lastPassThroughSize, SPARSE_SIZE, decode);
      if indexed.Err? {
        return None;
      }
      var (index, newEndOffset, remain) := indexed.value;
      lastPassThroughSize := remain;
      sent := sent + [Event(part, Entries(index), newEndOffset)];
      return Some((size >= objectSize, newEndOffset));
    }

    method Close()
      modifies this
      ensures View() == old(View()).(events := old(sent) + [CLOSE])
    {
      sent := sent + [CLOSE];
    }
  }

  class RangeOffload {
    const owner: Owner
    var multiPartObject: MultiPartObject?
    var uploads: seq<Upload>

    ghost function View(): OffloadState
      reads this, multiPartObject
    {
      OffloadState(if multiPartObject == null then None else Some(multiPartObject.View()), uploads)
    }

    /** The writer of one object works with the object size of the owner. */
    ghost predicate Valid()
      reads this, multiPartObject
    {
      multiPartObject != null ==> multiPartObject.objectSize == owner.objectSize
    }

    constructor (owner: Owner)
      ensures Valid() && this.owner == owner && View() == OffloadState(None, [])
    {
      this.owner := owner;
      multiPartObject, uploads := null, [];
    }

    method Write(start: nat, payload: Payload, decode: Decoder) returns (r: Option<nat>)
      requires Valid() && |Join(payload)| <= ISIZE_MAX
      modifies this, multiPartObject
      ensures r.Some? <==> old(View()).Accepts(owner.objectSize, start, payload, decode)
      ensures r.Some? ==> Valid() && View() == old(View()).Write(owner.objectSize, start, payload, decode)
      ensures r.Some? ==> r.value == PayloadEnd(payload, decode)
      ensures multiPartObject == null || multiPartObject == old(multiPartObject) || fresh(multiPartObject)
    {
      hide Readable, PayloadEnd, PassLeft, IndexLeft, Join;
      var payloadLength := AsU32(|Join(payload)|);
      if multiPartObject != null {
        var written := multiPartObject.Write(payload, decode);
        if written.None? {
          return None;
        }
        var (full, endOffset) := written.value;
        if full {
          multiPartObject.Close();
          uploads := uploads + [Parts(multiPartObject.startOffset, multiPartObject.sent)];
          multiPartObject := null;
        }
        return Some(endOffset);
      }
      if payloadLength >= owner.objectSize {
        var whole := WriteWhole(owner, start, payload, decode);
        if whole.None? {
          return None;
        }
        uploads := uploads + [Whole(start, payload, whole.value.3, whole.value.0)];
        return Some(whole.value.0);
      }
      var m := new MultiPartObject(start, owner.objectSize);
      var first := m.Write(payload, decode);
      if first.None? {
        return None;
      }
      multiPartObject := m;
      return Some(first.value.1);
    }

    /** `trigger_flush` and `flush`: close the object in flight, if any. */
    method Flush()
      requires Valid()
      modifies this, multiPartObject
      ensures Valid() && multiPartObject == null && View() == old(View()).Flush()
    {
      if multiPartObject != null {
        multiPartObject.Close();
        uploads := uploads + [Parts(multiPartObject.startOffset, multiPartObject.sent)];
        multiPartObject := null;
      }
    }
  }

  // ---- The loop that feeds the writer -----------------------------------------------

  /** One turn of `read_loop`: records were fetched at the next offset, a timer asked for a flush,
      or the loop was told to stop. */
  datatype Turn = Fetched(payload: Payload) | FlushOnTimer | Stop

  /** `fetched` remembers every byte that was fetched. */
  datatype Loop = Loop(offload: OffloadState, next: nat, running: bool, fetched: bytes)

  function Take(s: Loop, objectSize: nat, t: Turn, decode: Decoder): Loop {
    match t
    case Fetched(payload) =>
      s.(offload := s.offload.Write(objectSize, s.next, payload, decode),
         next := PayloadEnd(payload, decode),
         fetched := s.fetched + Join(payload))
    case FlushOnTimer => s.(offload := s.offload.Flush())
    case Stop => s.(offload := s.offload.Flush(), running := false)
  }

  /** A fetch asks for half as much again as an object; fetched records are accepted and move the
      offset on. */
  predicate Enabled(s: Loop, objectSize: nat, t: Turn, decode: Decoder) {
    && s.running
    && match t
       case Fetched(payload) =>
         && 3 * objectSize <= U32_MAX
         && s.offload.Accepts(objectSize, s.next, payload, decode)
         && s.next < PayloadEnd(payload, decode) <= U64_MAX
       case _ => true
  }

  function Init(start: nat): Loop { Loop(OffloadState(None, []), start, true, []) }

  /** Every turn was enabled when it was taken. */
  predicate Runs(s: Loop, objectSize: nat, turns: seq<Turn>, decode: Decoder)
    decreases |turns|
  {
    turns == [] || (&& Runs(s, objectSize, turns[..|turns| - 1], decode)
                    && Enabled(After(s, objectSize, turns[..|turns| - 1], decode), objectSize, turns[|turns| - 1], decode))
  }

  function After(s: Loop, objectSize: nat, turns: seq<Turn>, decode: Decoder): Loop
    decreases |turns|
  {
    if turns == [] then s
    else Take(After(s, objectSize, turns[..|turns| - 1], decode), objectSize, turns[|turns| - 1], decode)
  }

  // ---- The objects of one owner tile its range --------------------------------------

  function Commits(owner: Owner, us: seq<Upload>): (ts: seq<ObjectMetadata>)
    ensures |ts| == |us|
  {
    seq(|us|, i requires 0 <= i < |us| => Committed(owner, us[i]))
  }

  function AllData(us: seq<Upload>): bytes {
    if us == [] then [] else AllData(us[..|us| - 1]) + DataOf(us[|us| - 1])
  }

  /** The object in flight holds the records from its start up to the next offset. */
  ghost predicate Open(m: MultiState, next: nat, data: bytes) {
    && Fold(m.events, m.start) == Folded(next, data)
    && m.start < next
    && forall i :: 0 <= i < |m.events| ==> m.events[i].HasData()
  }

  /** Where the records of an upload end. */
  function EndOffsetOf(u: Upload): nat {
    match u
    case Whole(_, _, _, end) => end
    case Parts(start, events) => Fold(events, start).end
  }

  /** The uploads take the offsets from `start` to `end`, each from where the one before it ends. */
  ghost predicate Contiguous(us: seq<Upload>, start: nat, end: nat) {
    if us == [] then start == end
    else
      var u := us[|us| - 1];
      Contiguous(us[..|us| - 1], start, u.start) && u.start < EndOffsetOf(u) == end
  }

  ghost predicate Finished(us: seq<Upload>) {
    forall i :: 0 <= i < |us| ==> us[i].Parts? ==> Closed(us[i].events)
  }

  /** No upload spans more offsets than the 32-bit length field can hold. */
  ghost predicate SpansFit(us: seq<Upload>) {
    forall i :: 0 <= i < |us| ==> EndOffsetOf(us[i]) - us[i].start <= U32_MAX
  }

  ghost predicate Inv(start: nat, s: Loop, pending: bytes) {
    && s.next <= U64_MAX
    && Finished(s.offload.uploads) && Contiguous(s.offload.uploads, start, s.offload.ObjectStart(s.next))
    && AllData(s.offload.uploads) + pending == s.fetched
    && (if s.offload.multi.Some? then Open(s.offload.multi.value, s.next, pending) else pending == [])
    && (!s.running ==> s.offload.multi.None?)
  }

  lemma {:induction false} TilingSnoc(ts: seq<ObjectMetadata>, t: ObjectMetadata, all: seq<ObjectMetadata>, start: nat, epoch: nat)
    requires all == ts + [t]
    ensures (Tiling(all, start, epoch)
             <==> && Tiling(ts, start, epoch) && t.epoch == epoch && t.startOffset == TileEnd(ts, start, |ts|)
                  && 0 < t.endOffsetDelta && t.EndOffset() <= U64_MAX)
    ensures TileEnd(all, start, |all|) == t.EndOffset()
  {
    forall i | 0 <= i < |ts|
      ensures TileAt(all, start, epoch, i) == TileAt(ts, start, epoch, i)
    {
      assert TileEnd(all, start, i) == TileEnd(ts, start, i);
    }
    assert TileEnd(all, start, |ts|) == TileEnd(ts, start, |ts|);
    assert TileAt(all, start, epoch, |ts|) <==> (&& t.epoch == epoch && t.startOffset == TileEnd(ts, start, |ts|)
                                                 && 0 < t.endOffsetDelta && t.EndOffset() <= U64_MAX);
    if Tiling(all, start, epoch) {
      forall i | 0 <= i < |ts|
        ensures TileAt(ts, start, epoch, i)
      {
        assert TileAt(all, start, epoch, i);
      }
    }
  }

  /** The committed object belongs to the owner's range and epoch, starts where the upload starts, and
      has the end and the length of the uploaded data, each if and only if it fits its 32-bit field. */
  lemma {:induction false} CommitExact(owner: Owner, u: Upload, t: ObjectMetadata)
    requires t == Committed(owner, u) && u.start <= EndOffsetOf(u)
    ensures (t.streamId, t.rangeIndex, t.epoch) == (owner.streamId, owner.rangeIndex, owner.epoch) && t.startOffset == u.start
    ensures t.EndOffset() <= EndOffsetOf(u)
    ensures t.EndOffset() == EndOffsetOf(u) <==> EndOffsetOf(u) - u.start <= U32_MAX
    ensures t.dataLen == |DataOf(u)| <==> |DataOf(u)| <= U32_MAX
  {
    hide Fold, Join;
  }

  /** Contiguous uploads commit metadata that tile the range up to their end, if and only if none of
      them spans more than the length field can hold. */
  lemma {:induction false} TilingIff(owner: Owner, start: nat, us: seq<Upload>, end: nat)
    requires Contiguous(us, start, end) && end <= U64_MAX && owner.epoch < U16_MAX
    ensures Tiling(Commits(owner, us), start, owner.epoch) && TileEnd(Commits(owner, us), start, |us|) == end <==> SpansFit(us)
    decreases |us|
  {
    hide Fold, Join, Committed, EndOffsetOf;
    if us != [] {
      var front, u := us[..|us| - 1], us[|us| - 1];
      var ts, all := Commits(owner, front), Commits(owner, us);
      TilingIff(owner, start, front, u.start);
      CommitExact(owner, u, Committed(owner, u));
      assert all == ts + [Committed(owner, u)];
      TilingSnoc(ts, Committed(owner, u), all, start, owner.epoch);
      SpansSnoc(front, u, us);
    }
  }

  lemma {:induction false} SpansSnoc(front: seq<Upload>, u: Upload, us: seq<Upload>)
    requires us == front + [u]
    ensures SpansFit(us) <==> SpansFit(front) && EndOffsetOf(u) - u.start <= U32_MAX
  {
    hide EndOffsetOf;
    assert us[|front|] == u && forall i :: 0 <= i < |front| ==> us[i] == front[i];
  }

  lemma {:induction false} UploadFollows(start: nat, us: seq<Upload>, u: Upload, at: nat, next: nat)
    requires Finished(us) && Contiguous(us, start, at) && at == u.start < next == EndOffsetOf(u)
    requires u.Parts? ==> Closed(u.events)
    ensures Finished(us + [u]) && Contiguous(us + [u], start, next)
    ensures AllData(us + [u]) == AllData(us) + DataOf(u)
  {
    assert (us + [u])[..|us|] == us;
  }

  lemma {:induction false} PartFolds(m: MultiState, part: Payload, decode: Decoder, next: nat, data: bytes)
    requires Fold(m.events, m.start) == Folded(next, data) && (forall i :: 0 <= i < |m.events| ==> m.events[i].HasData())
    requires m.start <= next < PayloadEnd(part, decode) && Join(part) != []
    ensures Open(m.Written(part, decode), PayloadEnd(part, decode), data + Join(part))
  {
    hide PayloadEnd, PassLeft, IndexLeft, Join;
    FoldSnoc(m.events, m.PartEvent(part, decode), m.start);
  }

  /** Closing the object in flight adds the upload that holds exactly its records. */
  lemma {:induction false} CloseFollows(start: nat, us: seq<Upload>, m: MultiState, next: nat, data: bytes)
    requires Finished(us) && Contiguous(us, start, m.start) && Open(m, next, data)
    ensures Finished(us + [m.Close()]) && Contiguous(us + [m.Close()], start, next)
    ensures AllData(us + [m.Close()]) == AllData(us) + data
  {
    FoldSnoc(m.events, CLOSE, m.start);
    assert data + [] == data;
    UploadFollows(start, us, m.Close(), m.start, next);
  }

  lemma {:induction false} FlushKeeps(start: nat, s: Loop, pending: bytes)
    requires Inv(start, s, pending)
    ensures Inv(start, s.(offload := s.offload.Flush()), [])
    ensures Inv(start, s.(offload := s.offload.Flush(), running := false), [])
  {
    var us := s.offload.uploads;
    if s.offload.multi.Some? {
      CloseFollows(start, us, s.offload.multi.value, s.next, pending);
      assert AllData(s.offload.Flush().uploads) + [] == s.fetched;
    }
  }

  lemma {:induction false} ReadableHasData(payload: Payload, decode: Decoder, start: nat, pass: nat)
    requires Readable(payload, decode, start, pass)
    ensures Join(payload) != []
  {
  }

  /** The data that is in no finished object after a fetch. */
  lemma {:induction false} FetchKeeps(owner: Owner, start: nat, s: Loop, pending: bytes, payload: Payload, decode: Decoder) returns (pending': bytes)
    requires Inv(start, s, pending) && Enabled(s, owner.objectSize, Fetched(payload), decode)
    ensures Inv(start, Take(s, owner.objectSize, Fetched(payload), decode), pending')
  {
    hide Readable, PayloadEnd, PassLeft, IndexLeft, Join, Fold, AllData;
    var us, end, data := s.offload.uploads, PayloadEnd(payload, decode), Join(payload);
    ReadableHasData(payload, decode, s.offload.ObjectStart(s.next), if s.offload.multi.Some? then s.offload.multi.value.pass else 0);
    assert AllData(us) + (pending + data) == s.fetched + data;
    if s.offload.multi.Some? {
      var m := s.offload.multi.value;
      PartFolds(m, payload, decode, s.next, pending);
      var w := m.Written(payload, decode);
      if w.size >= owner.objectSize {
        CloseFollows(start, us, w, end, pending + data);
        pending' := [];
        assert AllData(us + [w.Close()]) + [] == s.fetched + data;
      } else {
        pending' := pending + data;
      }
    } else if AsU32(|data|) >= owner.objectSize {
      var u := Whole(s.next, payload, IndexLeft(payload, decode, s.next, 0), end);
      UploadFollows(start, us, u, s.next, end);
      pending' := [];
      assert AllData(us + [u]) + [] == AllData(us) + data;
    } else {
      var m := MultiState(s.next, 0, 0, []);
      FoldNone(s.next);
      PartFolds(m, payload, decode, s.next, []);
      pending' := data;
      assert [] + data == data;
    }
  }

  lemma {:induction false} RunKeeps(owner: Owner, start: nat, turns: seq<Turn>, decode: Decoder) returns (pending: bytes)
    requires owner.epoch < U16_MAX && start <= U64_MAX && Runs(Init(start), owner.objectSize, turns, decode)
    ensures Inv(start, After(Init(start), owner.objectSize, turns, decode), pending)
    decreases |turns|
  {
    if turns == [] {
      pending := [];
      assert Contiguous([], start, start);
    } else {
      var front, last := turns[..|turns| - 1], turns[|turns| - 1];
      var before := RunKeeps(owner, start, front, decode);
      var s := After(Init(start), owner.objectSize, front, decode);
      if last.Fetched? {
        pending := FetchKeeps(owner, start, s, before, last.payload, decode);
      } else {
        FlushKeeps(start, s, before);
        pending := [];
      }
    }
  }

  /** Over every run of fetches, full closes and flushes: the finished uploads take the range from
      the owner's start, with no gap and no overlap, up to the object in flight, which reaches to the
      next offset; their data, followed by the data in flight, is exactly what was fetched; and the
      metadata they commit tile the range, if and only if no object spans more than 2^32 - 1 offsets. */
  lemma {:induction false} OffloadTiles(owner: Owner, start: nat, turns: seq<Turn>, decode: Decoder) returns (pending: bytes)
    requires owner.epoch < U16_MAX && start <= U64_MAX && Runs(Init(start), owner.objectSize, turns, decode)
    ensures var s := After(Init(start), owner.objectSize, turns, decode);
            var us, at := s.offload.uploads, s.offload.ObjectStart(s.next);
            && Finished(us) && Contiguous(us, start, at)
            && AllData(us) + pending == s.fetched
            && (s.offload.multi.Some? ==> Fold(s.offload.multi.value.events, at) == Folded(s.next, pending))
            && (s.offload.multi.None? ==> at == s.next && pending == [])
            && (!s.running ==> s.offload.multi.None?)
            && (Tiling(Commits(owner, us), start, owner.epoch) && TileEnd(Commits(owner, us), start, |us|) == at <==> SpansFit(us))
  {
    pending := RunKeeps(owner, start, turns, decode);
    var s := After(Init(start), owner.objectSize, turns, decode);
    TilingIff(owner, start, s.offload.uploads, s.offload.ObjectStart(s.next));
  }

  // ---- What the uploads say of their records --------------------------------------------

  /** With records below 4 GiB, the end of a payload is the end of its last record. */
  lemma {:induction false} PayloadEndIsLast(payload: Payload, decode: Decoder, start: nat, pass: nat)
    requires Readable(payload, decode, start, pass) && Short(Split(Join(payload)).value)
    ensures Some(PayloadEnd(payload, decode)) == RecordEnd(LastOf(Split(Join(payload)).value), decode)
  {
    ShortEnd(Join(payload), decode);
  }

  function EndsOf(es: seq<Entry>): (ends: seq<nat>)
    ensures |ends| == |es|
  {
    seq(|es|, i requires 0 <= i < |es| => es[i].end)
  }

  /** The entries name the records that one pass over the data would index. */
  ghost predicate Indexed(start: nat, data: bytes, es: seq<Entry>, decode: Decoder) {
    Split(data).Some? && EndsOf(es) == EndsOf(Index(RecsOf(Split(data).value, decode, start), 0, SPARSE_SIZE))
  }

  /** The object in flight is indexed so far, and carries the pass-through size of one pass. */
  ghost predicate IndexedSoFar(m: MultiState, decode: Decoder) {
    var data := Fold(m.events, m.start).data;
    Indexed(m.start, data, Indexes(m.events), decode) && m.pass == Pass(RecsOf(Split(data).value, decode, m.start), 0, SPARSE_SIZE)
  }

  ghost predicate AllIndexed(s: OffloadState, decode: Decoder) {
    && (forall i :: 0 <= i < |s.uploads| ==> Indexed(s.uploads[i].start, DataOf(s.uploads[i]), IndexOf(s.uploads[i]), decode))
    && (s.multi.Some? ==> IndexedSoFar(s.multi.value, decode))
  }

  lemma {:induction false} EndsConcat(a: seq<Entry>, b: seq<Entry>, delta: nat)
    ensures EndsOf(a + b) == EndsOf(a) + EndsOf(b) && EndsOf(Shift(b, delta)) == EndsOf(b)
    decreases |b|
  {
    if b != [] {
      var n := |b| - 1;
      EndsConcat(a, b[..n], delta);
      assert EndsOf(b) == EndsOf(b[..n]) + [b[n].end];
      assert EndsOf(Shift(b, delta)) == EndsOf(Shift(b[..n], delta)) + [b[n].end];
    }
  }

  /** One more part is indexed as if the pass went on. */
  lemma {:induction false} PartIndexed(m: MultiState, part: Payload, decode: Decoder)
    requires IndexedSoFar(m, decode) && Readable(part, decode, m.start, m.pass)
    ensures IndexedSoFar(m.Written(part, decode), decode)
  {
    hide Join, Split, Index, Pass, RecsOf, Fold, Indexes, PayloadEnd, EndsOf, Shift, Pos;
    var e, a, b := m.PartEvent(part, decode), Fold(m.events, m.start).data, Join(part);
    FoldSnoc(m.events, e, m.start);
    IndexesSnoc(m.events, e);
    assert Split(b).Some?;
    var ra, rb := Split(a).value, Split(b).value;
    SplitSound(a);
    SplitPrefix(a + b, ra, b);
    RecsConcat(ra, rb, decode, m.start);
    var recsA, recsB := RecsOf(ra, decode, m.start), RecsOf(rb, decode, m.start);
    SplitIndexing(recsA, recsB, 0, SPARSE_SIZE);
    EndsConcat(Indexes(m.events), e.index, 0);
    EndsConcat(Index(recsA, 0, SPARSE_SIZE), Shift(e.index, Pos(recsA)), 0);
    EndsConcat([], e.index, Pos(recsA));
  }

  lemma {:induction false} NothingIndexed(start: nat, decode: Decoder)
    ensures IndexedSoFar(MultiState(start, 0, 0, []), decode)
  {
  }

  lemma {:induction false} CloseIndexed(m: MultiState, decode: Decoder)
    requires IndexedSoFar(m, decode)
    ensures Indexed(m.Close().start, DataOf(m.Close()), IndexOf(m.Close()), decode)
  {
    hide Fold, Indexes, Indexed;
    FoldSnoc(m.events, CLOSE, m.start);
    IndexesSnoc(m.events, CLOSE);
    assert Join(CLOSE.data) == [];
    var data := Fold(m.events, m.start).data;
    assert data + [] == data && Indexes(m.events) + [] == Indexes(m.events);
  }

  lemma {:induction false} WriteIndexed(s: OffloadState, objectSize: nat, next: nat, payload: Payload, decode: Decoder)
    requires AllIndexed(s, decode) && s.Accepts(objectSize, next, payload, decode)
    ensures AllIndexed(s.Write(objectSize, next, payload, decode), decode)
  {
    hide PayloadEnd, PassLeft, Join, Fold, Indexes, IndexedSoFar;
    if s.multi.Some? {
      var m := s.multi.value;
      PartIndexed(m, payload, decode);
      CloseIndexed(m.Written(payload, decode), decode);
    } else {
      NothingIndexed(next, decode);
      PartIndexed(MultiState(next, 0, 0, []), payload, decode);
    }
  }

  lemma {:induction false} TakeIndexed(s: Loop, objectSize: nat, t: Turn, decode: Decoder)
    requires AllIndexed(s.offload, decode) && Enabled(s, objectSize, t, decode)
    ensures AllIndexed(Take(s, objectSize, t, decode).offload, decode)
  {
    hide Indexed, IndexedSoFar, DataOf, IndexOf, OffloadState.Write, OffloadState.Accepts, PayloadEnd, Join, MultiState.Close;
    if t.Fetched? {
      WriteIndexed(s.offload, objectSize, s.next, t.payload, decode);
    } else if s.offload.multi.Some? {
      CloseIndexed(s.offload.multi.value, decode);
    }
  }

  /** Over every run, the index of every uploaded object names, in order, the records that one pass over
      its data would index, however the data came in. */
  lemma {:induction false} ObjectsIndexed(objectSize: nat, start: nat, turns: seq<Turn>, decode: Decoder)
    requires Runs(Init(start), objectSize, turns, decode)
    ensures AllIndexed(After(Init(start), objectSize, turns, decode).offload, decode)
    decreases |turns|
  {
    hide Indexed, IndexedSoFar, DataOf, IndexOf, Take, Enabled;
    if turns != [] {
      var front, last := turns[..|turns| - 1], turns[|turns| - 1];
      ObjectsIndexed(objectSize, start, front, decode);
      TakeIndexed(After(Init(start), objectSize, front, decode), objectSize, last, decode);
    }
  }

  /** A stop closes the object in flight, and nothing is fetched after it. */
  lemma {:induction false} StopEnds(s: Loop, objectSize: nat, t: Turn, decode: Decoder)
    ensures var stopped := Take(s, objectSize, Stop, decode);
            && stopped.offload.multi.None? && (stopped.next, stopped.fetched) == (s.next, s.fetched)
            && !Enabled(stopped, objectSize, t, decode)
  {
  }

  // ---- Full objects are closed ----------------------------------------------------------

  /** The bytes of the object in flight, as a 32-bit count. */
  function InFlight(s: OffloadState): u32 {
    if s.multi.Some? then AsU32(|Fold(s.multi.value.events, s.multi.value.start).data|) else 0
  }

  /** The object in flight knows its size, which is below the object size. */
  ghost predicate Small(s: OffloadState, objectSize: nat) {
    s.multi.Some? ==> s.multi.value.size == InFlight(s) < objectSize
  }

  /** A fetch that makes the bytes in flight reach the object size leaves nothing in flight and one more
      upload; any other adds its bytes to the object in flight. */
  lemma {:induction false} FetchCloses(s: OffloadState, objectSize: nat, next: nat, payload: Payload, decode: Decoder)
    requires Small(s, objectSize) && s.Accepts(objectSize, next, payload, decode)
    ensures var t := s.Write(objectSize, next, payload, decode);
            var size := InFlight(s) + AsU32(|Join(payload)|);
            && Small(t, objectSize)
            && if size >= objectSize then t.multi.None? && |t.uploads| == |s.uploads| + 1 && t.uploads[..|s.uploads|] == s.uploads
               else t.multi.Some? && InFlight(t) == size && t.uploads == s.uploads
  {
    hide Readable, PayloadEnd, PassLeft, IndexLeft, Join, Fold;
    var m := if s.multi.Some? then s.multi.value else MultiState(next, 0, 0, []);
    FoldNone(next);
    FoldSnoc(m.events, m.PartEvent(payload, decode), m.start);
  }

  /** Over every run, the object in flight is smaller than the object size. */
  lemma {:induction false} InFlightStaysSmall(objectSize: nat, start: nat, turns: seq<Turn>, decode: Decoder)
    requires Runs(Init(start), objectSize, turns, decode)
    ensures Small(After(Init(start), objectSize, turns, decode).offload, objectSize)
    decreases |turns|
  {
    if turns != [] {
      var front, last := turns[..|turns| - 1], turns[|turns| - 1];
      InFlightStaysSmall(objectSize, start, front, decode);
      var s := After(Init(start), objectSize, front, decode);
      if last.Fetched? {
        FetchCloses(s.offload, objectSize, s.next, last.payload, decode);
      }
    }
  }

  // ---- A run whose metadata do not tile the range -----------------------------------

  /** Three batches, one behind the other, that end 2^32 offsets behind the owner's start. */
  ghost predicate LongBatches(rs: seq<Record>, decode: Decoder) {
    && rs == [Record([1], []), Record([2], []), Record([3], [])]
    && decode([1]) == Some(RecordBatchMeta(1, 0, 0, I32_LIMIT - 1))
    && decode([2]) == Some(RecordBatchMeta(1, 0, I32_LIMIT - 1, I32_LIMIT - 1))
    && decode([3]) == Some(RecordBatchMeta(1, 0, U32_BASE - 2, 2))
  }

  lemma {:induction false} LongBatchesRead(rs: seq<Record>, decode: Decoder, payload: Payload)
    requires LongBatches(rs, decode) && AllFit(rs) && payload == [Joined(rs)]
    ensures Join(payload) == Joined(rs) && |Joined(rs)| == 30
    ensures Readable(payload, decode, 0, 0) && PayloadEnd(payload, decode) == U32_BASE && IndexLeft(payload, decode, 0, 0) == []
  {
    hide Record.Bytes, FirstRecord, Split, EndAt, IndexReadable, Joined;
    var b := Joined(rs);
    assert payload[1..] == [];
    assert Join(payload) == b;
    SplitComplete(rs);
    LongBatchesAt(rs, decode);
    ShortEnd(b, decode);
    ShortAt(rs);
    Unindexed(rs, decode, 0);
    assert RecordEnd(LastOf(rs), decode) == Some(U32_BASE);
  }

  lemma {:induction false} LongBatchesAt(rs: seq<Record>, decode: Decoder)
    requires LongBatches(rs, decode)
    ensures Short(rs) && At(rs) == 30 && LastPos(rs) == 20
  {
    var one, two := rs[..1], rs[..2];
    assert two[..1] == one && one[..0] == [];
    assert At(one) == 10;
    assert At(two) == 20;
  }

  /** Records below the sparse size are taken without being indexed. */
  lemma {:induction false} Unindexed(rs: seq<Record>, decode: Decoder, start: nat)
    requires Short(rs) && At(rs) < SPARSE_SIZE
    ensures IndexReadable(rs, decode, start, 0, SPARSE_SIZE) && Pass(RecsOf(rs, decode, start), 0, SPARSE_SIZE) == At(rs)
    ensures Index(RecsOf(rs, decode, start), 0, SPARSE_SIZE) == []
    decreases |rs|
  {
    if rs != [] {
      var n := |rs| - 1;
      Unindexed(rs[..n], decode, start);
      var recs := RecsOf(rs, decode, start);
      assert recs[..n] == RecsOf(rs[..n], decode, start);
    }
  }

  /** A run that fetches them: one object spans them all, the length committed for it is zero, and what
      is committed does not tile the range. */
  lemma {:induction false} TruncatedSpan(owner: Owner, rs: seq<Record>, decode: Decoder, turns: seq<Turn>, us: seq<Upload>)
    requires owner.epoch < U16_MAX && owner.objectSize == 30 && LongBatches(rs, decode) && AllFit(rs)
    requires turns == [Fetched([Joined(rs)])] && us == After(Init(0), 30, turns, decode).offload.uploads
    ensures Runs(Init(0), 30, turns, decode)
    ensures us == [Whole(0, [Joined(rs)], [], U32_BASE)] && !SpansFit(us)
    ensures Committed(owner, us[0]).endOffsetDelta == 0 && !Tiling(Commits(owner, us), 0, owner.epoch)
  {
    hide Readable, PayloadEnd, PassLeft, IndexLeft, Join;
    LongBatchesRead(rs, decode, [Joined(rs)]);
    assert turns[..0] == [];
    assert EndOffsetOf(us[0]) - us[0].start == U32_BASE;
    assert !TileAt(Commits(owner, us), 0, owner.epoch, 0);
  }
}
