/**
 The record-batch format: one writer and the readers that walk it
 (components/model/src/record/flat_record.rs, components/model/src/payload.rs,
 range-server/src/handler/append.rs).

 The FlatBuffers decoder of the batch metadata is a parameter; every statement holds for all of
 them. `Panic` stands for the places where a reader would abort instead of returning an error.
 */
module RecordFormat {
  import opened Prelude

  const MAGIC0: byte := 0x22
  const MIN_RECORD_BATCH_LEN: nat := 9

  /** No buffer is longer than the largest signed machine size. */
  const ISIZE_MAX: nat := 0x7FFF_FFFF_FFFF_FFFF

  type i32 = x: int | -0x8000_0000 <= x < 0x8000_0000
  type i64 = x: int | -0x8000_0000_0000_0000 <= x < 0x8000_0000_0000_0000

  datatype RecordBatchMeta = RecordBatchMeta(streamId: i64, rangeIndex: i32, baseOffset: i64, lastOffsetDelta: i32)

  type Decoder = bytes -> Option<RecordBatchMeta>

  datatype DecodeError = DataLengthMismatch | InvalidMagic | InvalidFlatbuffer | Panic

  datatype Record = Record(metadata: bytes, payload: bytes) {
    function Len(): nat { MIN_RECORD_BATCH_LEN + |metadata| + |payload| }

    /** The two length fields are signed 32-bit integers. */
    predicate Fits() { |metadata| < I32_LIMIT && |payload| < I32_LIMIT }

    function Bytes(): (b: bytes)
      requires Fits()
      ensures |b| == Len()
    {
      [MAGIC0] + PutU32(|metadata|) + metadata + PutU32(|payload|) + payload
    }
  }

  /** `FlatRecordBatch::encode`: four buffers, and their total length as a signed 32-bit integer. What
      it writes is the batch, and is read back as the batch, exactly when both lengths fit their fields. */
  method Encode(r: Record, magic: Option<byte>) returns (parts: seq<bytes>, totalLen: int)
    ensures |Join(parts)| == r.Len() && totalLen == AsI32(r.Len())
    ensures r.Fits() && magic.GetOr(MAGIC0) == MAGIC0 ==> Join(parts) == r.Bytes()
    ensures magic.GetOr(MAGIC0) == MAGIC0 ==> (FirstRecord(Join(parts)) == Some(r) <==> r.Fits())
  {
    hide FirstRecord, AsI32, PutU32;
    var prefix := [magic.GetOr(MAGIC0)] + PutU32(AsU32(|r.metadata|));
    parts := [prefix];
    var total := MIN_RECORD_BATCH_LEN;
    parts := parts + [r.metadata];
    total := total + |r.metadata|;
    var lenBuf := PutU32(AsU32(|r.payload|));
    parts := parts + [lenBuf];
    total := total + |r.payload|;
    parts := parts + [r.payload];
    totalLen := AsI32(total);
    JoinFour(prefix, r.metadata, lenBuf, r.payload);
    assert parts == [prefix, r.metadata, lenBuf, r.payload];
    if r.Fits() {
      FirstOfBytes(r, []);
      assert r.Bytes() + [] == r.Bytes();
    }
  }

  lemma {:induction false} JoinFour(a: bytes, b: bytes, c: bytes, d: bytes)
    ensures Join([a, b, c, d]) == a + b + c + d
  {
    assert [a, b, c, d][1..] == [b, c, d] && [b, c, d][1..] == [c, d] && [c, d][1..] == [d];
    assert Join([d]) == d;
    assert Join([c, d]) == c + d;
    assert Join([b, c, d]) == b + (c + d);
  }

  // ---- The format, without a reader -----------------------------------------------

  function Joined(rs: seq<Record>): (b: bytes)
    requires AllFit(rs)
  {
    if rs == [] then [] else rs[0].Bytes() + Joined(rs[1..])
  }

  predicate AllFit(rs: seq<Record>) {
    forall i :: 0 <= i < |rs| ==> rs[i].Fits()
  }

  /** The record at the start of `b`, if there is one. */
  function FirstRecord(b: bytes): (r: Option<Record>)
    ensures r.Some? ==> r.value.Fits() && r.value.Len() <= |b| && b[..r.value.Len()] == r.value.Bytes()
  {
    if |b| < MIN_RECORD_BATCH_LEN || b[0] != MAGIC0 then None
    else
      var m := GetU32(b[1..]);
      if m >= I32_LIMIT || |b| < MIN_RECORD_BATCH_LEN + m then None
      else
        var p := GetU32(b[5 + m..]);
        if p >= I32_LIMIT || |b| < MIN_RECORD_BATCH_LEN + m + p then None
        else
          FirstRecordBytes(b, m, p);
          Some(Record(b[5..5 + m], b[9 + m..9 + m + p]))
  }

  lemma {:induction false} FirstRecordBytes(b: bytes, m: nat, p: nat)
    requires m < I32_LIMIT && p < I32_LIMIT && MIN_RECORD_BATCH_LEN + m + p <= |b|
    requires b[0] == MAGIC0 && GetU32(b[1..]) == m && GetU32(b[5 + m..]) == p
    ensures Record(b[5..5 + m], b[9 + m..9 + m + p]).Bytes() == b[..9 + m + p]
  {
    U32Back(b[1..]);
    U32Back(b[5 + m..]);
    assert b[1..][..4] == b[1..5];
    assert b[5 + m..][..4] == b[5 + m..9 + m];
  }

  /** Where the five fields of a batch lie. */
  lemma {:induction false} Fields(magic: byte, metadataLen: bytes, metadata: bytes, payloadLen: bytes, payload: bytes, rest: bytes, b: bytes)
    requires |metadataLen| == |payloadLen| == 4
    requires b == [magic] + metadataLen + metadata + payloadLen + payload + rest
    ensures var m, p := |metadata|, |payload|;
            && |b| == 9 + m + p + |rest| && b[0] == magic
            && b[1..] == metadataLen + (metadata + payloadLen + payload + rest)
            && b[5..5 + m] == metadata
            && b[5 + m..] == payloadLen + (payload + rest)
            && b[9 + m..9 + m + p] == payload
  {
    var tail := payloadLen + (payload + rest);
    assert b == ([magic] + metadataLen + metadata) + tail;
    assert tail[4..4 + |payload|] == payload;
  }

  lemma {:induction false} FirstOfBytes(r: Record, rest: bytes)
    requires r.Fits()
    ensures FirstRecord(r.Bytes() + rest) == Some(r)
  {
    hide PutU32, GetU32;
    var b := r.Bytes() + rest;
    var m, p := |r.metadata|, |r.payload|;
    Fields(MAGIC0, PutU32(m), r.metadata, PutU32(p), r.payload, rest, b);
    U32RoundTrip(m, r.metadata + PutU32(p) + r.payload + rest);
    U32RoundTrip(p, r.payload + rest);
  }

  /** The records `b` consists of, if it consists of records. */
  function Split(b: bytes): (r: Option<seq<Record>>)
    decreases |b|
  {
    if b == [] then Some([])
    else match FirstRecord(b)
      case None => None
      case Some(first) =>
        match Split(b[first.Len()..])
        case None => None
        case Some(rest) => Some([first] + rest)
  }

  /** A byte string is read as `rs` exactly when it is the encoding of `rs`. */
  lemma {:induction false} SplitIff(b: bytes, rs: seq<Record>)
    ensures Split(b) == Some(rs) <==> AllFit(rs) && b == Joined(rs)
    decreases |rs|
  {
    if Split(b) == Some(rs) {
      SplitSound(b);
    }
    if AllFit(rs) && b == Joined(rs) {
      SplitComplete(rs);
    }
  }

  lemma {:induction false} JoinedCons(r: Record, rs: seq<Record>)
    requires r.Fits() && AllFit(rs)
    ensures AllFit([r] + rs) && Joined([r] + rs) == r.Bytes() + Joined(rs)
  {
    assert ([r] + rs)[1..] == rs;
  }

  lemma {:induction false} SplitSound(b: bytes)
    requires Split(b).Some?
    ensures AllFit(Split(b).value) && Joined(Split(b).value) == b
    decreases |b|
  {
    hide Record.Bytes, FirstRecord;
    if b != [] {
      var first := FirstRecord(b).value;
      var n := first.Len();
      SplitSound(b[n..]);
      JoinedCons(first, Split(b[n..]).value);
      assert b == b[..n] + b[n..];
    }
  }

  lemma {:induction false} SplitComplete(rs: seq<Record>)
    requires AllFit(rs)
    ensures Split(Joined(rs)) == Some(rs)
    decreases |rs|
  {
    hide Record.Bytes, FirstRecord;
    if rs != [] {
      SplitComplete(rs[1..]);
      assert Joined(rs) == Joined(rs) + [];
      StartsWith(Joined(rs), rs, []);
      assert Joined(rs[1..]) + [] == Joined(rs[1..]);
      SplitFirst(Joined(rs));
      assert rs == [rs[0]] + rs[1..];
    }
  }

  // ---- Reader 1: FlatRecordBatch::init_from_buf -----------------------------------

  method InitFromBuf(buf: bytes) returns (r: Result<Record, DecodeError>, rest: bytes)
    requires |buf| <= ISIZE_MAX
    ensures r.Ok? <==> FirstRecord(buf).Some?
    ensures r.Ok? ==> FirstRecord(buf) == Some(r.value) && rest == buf[r.value.Len()..]
    ensures r.Err? ==> rest == buf
    ensures r == Err(InvalidMagic) <==> |buf| >= MIN_RECORD_BATCH_LEN && buf[0] != MAGIC0
    ensures r == Err(Panic) <==> |buf| >= MIN_RECORD_BATCH_LEN && buf[0] == MAGIC0 && -4 <= GetI32(buf[1..]) < 0
  {
    rest := buf;
    if |buf| < MIN_RECORD_BATCH_LEN {
      return Err(DataLengthMismatch), rest;
    }
    if buf[0] != MAGIC0 {
      return Err(InvalidMagic), rest;
    }
    var metadataLen := AsUsize(GetI32(buf[1..]));
    if metadataLen + 4 > U64_MAX {
      return Err(Panic), rest;  // the addition overflows
    }
    if |buf| - 5 < metadataLen + 4 {
      return Err(DataLengthMismatch), rest;
    }
    var payloadLen := AsUsize(GetI32(buf[5 + metadataLen..]));
    if |buf| - 9 - metadataLen < payloadLen {
      return Err(DataLengthMismatch), rest;
    }
    var payloadFrom := 9 + metadataLen;
    var payloadTo := payloadFrom + payloadLen;
    rest := buf[payloadTo..];
    return Ok(Record(buf[5..5 + metadataLen], buf[payloadFrom..payloadTo])), rest;
  }

  /** Decoding a buffer batch by batch until it is empty. */
  method DecodeAll(buf: bytes) returns (r: Option<seq<Record>>)
    requires |buf| <= ISIZE_MAX
    ensures r == Split(buf)
  {
    var rest := buf;
    var done: seq<Record> := [];
    ghost var pos: nat := 0;
    while rest != []
      invariant Walked(buf, done, pos) && rest == buf[pos..]
      decreases |rest|
    {
      var one, left := InitFromBuf(rest);
      if one.Err? {
        SplitAfter(buf, done, pos);
        return None;
      }
      WalkOn(buf, done, pos);
      done := done + [one.value];
      pos := pos + one.value.Len();
      rest := left;
    }
    SplitAfter(buf, done, pos);
    assert done + [] == done;
    return Some(done);
  }

  /** The first `pos` bytes are the records `done`. */
  ghost predicate Walked(b: bytes, done: seq<Record>, pos: nat) {
    pos <= |b| && AllFit(done) && b[..pos] == Joined(done)
  }

  lemma {:induction false} WalkOn(b: bytes, done: seq<Record>, pos: nat)
    requires Walked(b, done, pos) && FirstRecord(b[pos..]).Some?
    ensures var first := FirstRecord(b[pos..]).value;
            && Walked(b, done + [first], pos + first.Len())
            && b[pos..][first.Len()..] == b[pos + first.Len()..]
            && b[pos..pos + first.Len()] == first.Bytes()
  {
    var first := FirstRecord(b[pos..]).value;
    var n := first.Len();
    JoinedSnoc(done, first);
    assert b[pos..][..n] == b[pos..pos + n];
    assert b[..pos + n] == b[..pos] + b[pos..pos + n];
  }

  /** What is read after the records `done` decides the rest. */
  lemma {:induction false} SplitAfter(b: bytes, done: seq<Record>, pos: nat)
    requires Walked(b, done, pos)
    ensures Split(b) == Before(done, Split(b[pos..]))
  {
    assert b == b[..pos] + b[pos..];
    SplitPrefix(b, done, b[pos..]);
  }

  lemma {:induction false} StartsWith(b: bytes, done: seq<Record>, rest: bytes)
    requires AllFit(done) && done != [] && b == Joined(done) + rest
    ensures FirstRecord(b) == Some(done[0]) && b[done[0].Len()..] == Joined(done[1..]) + rest
  {
    var head, tail := done[0].Bytes(), Joined(done[1..]);
    ConcatAssoc(head, tail, rest);
    FirstOfBytes(done[0], tail + rest);
    DropPrefix(head, tail + rest);
  }

  lemma {:induction false} DropPrefix(a: bytes, b: bytes)
    ensures (a + b)[|a|..] == b
  {
  }

  lemma {:induction false} SplitFirst(b: bytes)
    requires b != [] && FirstRecord(b).Some?
    ensures var first := FirstRecord(b).value;
            Split(b) == Before([first], Split(b[first.Len()..]))
  {
  }

  /** The records `done` put before a reading. */
  function Before(done: seq<Record>, rest: Option<seq<Record>>): Option<seq<Record>> {
    if rest.Some? then Some(done + rest.value) else None
  }

  lemma {:induction false} BeforeCons(done: seq<Record>, rest: Option<seq<Record>>)
    ensures done == [] ==> Before(done, rest) == rest
    ensures done != [] ==> Before(done, rest) == Before([done[0]], Before(done[1..], rest))
  {
    if rest.Some? {
      if done == [] {
        assert done + rest.value == rest.value;
      } else {
        assert done + rest.value == [done[0]] + (done[1..] + rest.value);
      }
    }
  }

  lemma {:induction false} SplitPrefix(b: bytes, done: seq<Record>, rest: bytes)
    requires AllFit(done) && b == Joined(done) + rest
    ensures Split(b) == Before(done, Split(rest))
    decreases |done|
  {
    hide Record.Bytes, FirstRecord;
    BeforeCons(done, Split(rest));
    if done == [] {
      assert b == rest;
    } else {
      StartsWith(b, done, rest);
      SplitFirst(b);
      SplitPrefix(b[done[0].Len()..], done[1..], rest);
    }
  }

  lemma {:induction false} JoinedSnoc(rs: seq<Record>, r: Record)
    requires AllFit(rs) && r.Fits()
    ensures AllFit(rs + [r]) && Joined(rs + [r]) == Joined(rs) + r.Bytes()
    decreases |rs|
  {
    if rs == [] {
      JoinedCons(r, []);
      assert rs + [r] == [r] + [];
      assert r.Bytes() + [] == [] + r.Bytes();
    } else {
      JoinedSnoc(rs[1..], r);
      JoinedCons(rs[0], rs[1..] + [r]);
      assert rs + [r] == [rs[0]] + (rs[1..] + [r]);
      assert (rs[0].Bytes() + Joined(rs[1..])) + r.Bytes() == rs[0].Bytes() + (Joined(rs[1..]) + r.Bytes());
    }
  }

  // ---- Reader 2: Payload::parse_append_entry --------------------------------------

  datatype AppendEntry = AppendEntry(streamId: nat, index: u32, offset: Option<nat>, len: u32)

  function EntryOf(meta: RecordBatchMeta): AppendEntry {
    AppendEntry(AsU64(meta.streamId), AsU32(meta.rangeIndex),
                if meta.baseOffset >= 0 then Some(meta.baseOffset) else None, AsU32(meta.lastOffsetDelta))
  }

  /** `None` at the end of the payload; otherwise an entry and its length. */
  method ParseAppendEntry(payload: bytes, decode: Decoder) returns (r: Result<Option<(AppendEntry, nat)>, DecodeError>)
    requires |payload| <= ISIZE_MAX
    ensures r == Ok(None) <==> payload == []
    ensures r.Ok? && r.value.Some? <==>
              payload != [] && FirstRecord(payload).Some? && decode(FirstRecord(payload).value.metadata).Some?
    ensures r.Ok? && r.value.Some? ==>
              var first := FirstRecord(payload).value;
              r.value.value == (EntryOf(decode(first.metadata).value), first.Len())
  {
    if payload == [] {
      return Ok(None);
    }
    if |payload| < 9 {
      return Err(DataLengthMismatch);
    }
    if payload[0] != MAGIC0 {
      return Err(InvalidMagic);
    }
    var metadataLen := AsUsize(GetI32(payload[1..]));
    if |payload| - 5 <= metadataLen {
      return Err(DataLengthMismatch);
    }
    var meta := decode(payload[5..5 + metadataLen]);
    if meta.None? {
      return Err(InvalidFlatbuffer);
    }
    if |payload| - 5 - metadataLen < 4 {
      return Err(Panic);  // the length field is read without a check
    }
    var payloadLen := AsUsize(GetI32(payload[5 + metadataLen..]));
    if |payload| - 9 - metadataLen < payloadLen {
      return Err(DataLengthMismatch);
    }
    return Ok(Some((EntryOf(meta.value), 9 + metadataLen + payloadLen)));
  }

  predicate Decodable(rs: seq<Record>, decode: Decoder) {
    forall i :: 0 <= i < |rs| ==> decode(rs[i].metadata).Some?
  }

  function MetaOf(r: Record, decode: Decoder): RecordBatchMeta {
    decode(r.metadata).GetOr(RecordBatchMeta(0, 0, 0, 0))
  }

  function EntriesOf(rs: seq<Record>, decode: Decoder): (es: seq<AppendEntry>)
    ensures |es| == |rs|
    decreases |rs|
  {
    if rs == [] then []
    else EntriesOf(rs[..|rs| - 1], decode) + [EntryOf(MetaOf(rs[|rs| - 1], decode))]
  }

  lemma {:induction false} EntriesSnoc(rs: seq<Record>, r: Record, decode: Decoder)
    requires Decodable(rs, decode) && decode(r.metadata).Some?
    ensures Decodable(rs + [r], decode)
    ensures EntriesOf(rs + [r], decode) == EntriesOf(rs, decode) + [EntryOf(decode(r.metadata).value)]
  {
    assert (rs + [r])[..|rs|] == rs;
  }

  /** The entry of each record names the stream, the range and the length in offsets that its metadata
      name, and its offset unless that is negative. */
  lemma {:induction false} EntriesAt(rs: seq<Record>, decode: Decoder, i: nat)
    requires i < |rs| && decode(rs[i].metadata).Some?
    ensures var meta, e := decode(rs[i].metadata).value, EntriesOf(rs, decode)[i];
            && (e.streamId, e.index, e.len) == (AsU64(meta.streamId), AsU32(meta.rangeIndex), AsU32(meta.lastOffsetDelta))
            && (e.offset.Some? <==> meta.baseOffset >= 0) && (e.offset.Some? ==> e.offset.value == meta.baseOffset)
    decreases |rs|
  {
    if i < |rs| - 1 {
      EntriesAt(rs[..|rs| - 1], decode, i);
    }
  }

  /** One entry at `pos`, in the middle of a payload whose records up to there are `done`. */
  method NextEntry(payload: bytes, pos: nat, ghost done: seq<Record>, decode: Decoder)
    returns (r: Result<Option<(AppendEntry, nat)>, DecodeError>, ghost first: Record)
    requires |payload| <= ISIZE_MAX && Walked(payload, done, pos)
    ensures r.Err? && Split(payload).Some? ==> !Decodable(Split(payload).value, decode)
    ensures r == Ok(None) ==> Split(payload) == Some(done)
    ensures r.Ok? && r.value.Some? ==>
              && decode(first.metadata).Some? && first.Fits()
              && r.value.value == (EntryOf(decode(first.metadata).value), first.Len())
              && Walked(payload, done + [first], pos + first.Len())
              && payload[pos..pos + first.Len()] == first.Bytes()
    ensures r.Ok? && r.value.Some? && Split(payload).Some? ==>
              |done| < |Split(payload).value| && Split(payload).value[|done|] == first
  {
    first := Record([], []);
    SplitAfter(payload, done, pos);
    r := ParseAppendEntry(payload[pos..], decode);
    if r.Err? {
      UnreadableRest(payload, done, pos, decode);
    } else if r.value.None? {
      assert done + [] == done;
    } else {
      first := FirstRecord(payload[pos..]).value;
      WalkOn(payload, done, pos);
    }
  }

  /** `parse_append_entries` succeeds exactly on encodings of records with readable metadata, and
      returns one entry per record. */
  method ParseAppendEntries(payload: bytes, decode: Decoder) returns (r: Result<seq<AppendEntry>, DecodeError>)
    requires |payload| <= ISIZE_MAX
    ensures r.Ok? <==> Split(payload).Some? && Decodable(Split(payload).value, decode)
    ensures r.Ok? ==> r.value == EntriesOf(Split(payload).value, decode)
  {
    hide Record.Bytes, FirstRecord, Split;
    var entries := [];
    var pos: nat := 0;
    ghost var done: seq<Record> := [];
    while true
      invariant Walked(payload, done, pos)
      invariant Decodable(done, decode) && entries == EntriesOf(done, decode)
      decreases |payload| - pos
    {
      var one, first := NextEntry(payload, pos, done, decode);
      if one.Err? {
        return Err(one.error);
      }
      if one.value.None? {
        return Ok(entries);
      }
      EntriesSnoc(done, first, decode);
      done := done + [first];
      entries := entries + [one.value.value.0];
      pos := pos + one.value.value.1;
    }
  }

  lemma {:induction false} UnreadableRest(b: bytes, done: seq<Record>, pos: nat, decode: Decoder)
    requires Walked(b, done, pos) && pos < |b|
    requires FirstRecord(b[pos..]).Some? ==> decode(FirstRecord(b[pos..]).value.metadata).None?
    ensures Split(b).Some? ==> !Decodable(Split(b).value, decode)
  {
    SplitAfter(b, done, pos);
    if Split(b).Some? {
      var rest := Split(b[pos..]).value;
      assert Split(b).value[|done|] == rest[0] == FirstRecord(b[pos..]).value;
    }
  }

  // ---- Reader 3: Append::build_store_requests -------------------------------------

  datatype StoreRequest = StoreRequest(streamId: nat, index: int, offset: nat, len: u32, buffer: bytes)

  function RequestOf(r: Record, decode: Decoder): StoreRequest
    requires r.Fits() && MetaOf(r, decode).baseOffset >= 0
  {
    var meta := MetaOf(r, decode);
    StoreRequest(AsU64(meta.streamId), meta.rangeIndex, meta.baseOffset, AsU32(meta.lastOffsetDelta), r.Bytes())
  }

  predicate Storable(rs: seq<Record>, decode: Decoder) {
    AllFit(rs) && Decodable(rs, decode) && forall i :: 0 <= i < |rs| ==> MetaOf(rs[i], decode).baseOffset >= 0
  }

  function RequestsOf(rs: seq<Record>, decode: Decoder): (qs: seq<StoreRequest>)
    requires Storable(rs, decode)
    ensures |qs| == |rs|
    decreases |rs|
  {
    if rs == [] then []
    else RequestsOf(rs[..|rs| - 1], decode) + [RequestOf(rs[|rs| - 1], decode)]
  }

  function Buffers(qs: seq<StoreRequest>): seq<bytes> {
    if qs == [] then [] else Buffers(qs[..|qs| - 1]) + [qs[|qs| - 1].buffer]
  }

  lemma {:induction false} RequestsSnoc(rs: seq<Record>, r: Record, decode: Decoder)
    requires Storable(rs, decode) && r.Fits() && decode(r.metadata).Some? && MetaOf(r, decode).baseOffset >= 0
    ensures Storable(rs + [r], decode)
    ensures RequestsOf(rs + [r], decode) == RequestsOf(rs, decode) + [RequestOf(r, decode)]
  {
    assert (rs + [r])[..|rs|] == rs;
  }

  /** Casting a signed 32-bit integer forth and back changes nothing. */
  lemma {:induction false} SignedBack(n: i32)
    ensures AsI32(AsU32(n)) == n
  {
  }

  /** The requests gathered from the records `done`. */
  ghost predicate Gathered(payload: bytes, done: seq<Record>, pos: nat, requests: seq<StoreRequest>, decode: Decoder) {
    Walked(payload, done, pos) && Storable(done, decode) && requests == RequestsOf(done, decode)
  }

  /** One turn: an error, the end of the payload, or one more request. */
  method NextRequest(payload: bytes, pos: nat, requests: seq<StoreRequest>, ghost done: seq<Record>, decode: Decoder)
    returns (r: Option<Option<(StoreRequest, nat)>>, ghost done': seq<Record>)
    requires |payload| <= ISIZE_MAX && Gathered(payload, done, pos, requests, decode)
    ensures r.None? && Split(payload).Some? ==> !Storable(Split(payload).value, decode)
    ensures r == Some(None) ==> Split(payload) == Some(done)
    ensures r.Some? && r.value.Some? ==>
              pos < r.value.value.1 && Gathered(payload, done', r.value.value.1, requests + [r.value.value.0], decode)
  {
    hide Record.Bytes, FirstRecord, Split;
    var one, first := NextEntry(payload, pos, done, decode);
    done' := done + [first];
    if one.Err? {
      return None, done';
    }
    if one.value.None? {
      return Some(None), done';
    }
    var (entry, len) := one.value.value;
    if entry.offset.None? {
      return None, done';
    }
    RequestsSnoc(done, first, decode);
    SignedBack(MetaOf(first, decode).rangeIndex);
    var request := StoreRequest(entry.streamId, AsI32(entry.index), entry.offset.value, entry.len, payload[pos..pos + len]);
    return Some(Some((request, pos + len))), done';
  }

  /** Succeeds exactly when every record also names its offset; each request carries the bytes of
      its record. */
  method BuildStoreRequests(payload: bytes, decode: Decoder) returns (r: Option<seq<StoreRequest>>)
    requires |payload| <= ISIZE_MAX
    ensures r.Some? <==> Split(payload).Some? && Storable(Split(payload).value, decode)
    ensures r.Some? ==> r.value == RequestsOf(Split(payload).value, decode)
  {
    hide Record.Bytes, FirstRecord, Split;
    var requests := [];
    var pos: nat := 0;
    ghost var done: seq<Record> := [];
    while true
      invariant pos <= |payload| && Gathered(payload, done, pos, requests, decode)
      decreases |payload| - pos
    {
      var next, done' := NextRequest(payload, pos, requests, done, decode);
      if next.None? {
        return None;
      }
      if next.value.None? {
        return Some(requests);
      }
      requests := requests + [next.value.value.0];
      done, pos := done', next.value.value.1;
    }
  }

  /** Each request carries the bytes of its record and what its metadata name. */
  lemma {:induction false} RequestsAt(rs: seq<Record>, decode: Decoder, i: nat)
    requires Storable(rs, decode) && i < |rs|
    ensures var meta, q := decode(rs[i].metadata).value, RequestsOf(rs, decode)[i];
            && (q.streamId, q.index, q.len) == (AsU64(meta.streamId), meta.rangeIndex as int, AsU32(meta.lastOffsetDelta))
            && q.offset == meta.baseOffset && q.buffer == rs[i].Bytes()
    decreases |rs|
  {
    if i < |rs| - 1 {
      RequestsAt(rs[..|rs| - 1], decode, i);
    }
  }

  /** The request slices partition the payload. */
  lemma {:induction false} RequestsPartition(rs: seq<Record>, decode: Decoder)
    requires Storable(rs, decode)
    ensures Join(Buffers(RequestsOf(rs, decode))) == Joined(rs)
    decreases |rs|
  {
    hide Record.Bytes;
    if rs != [] {
      var n := |rs| - 1;
      RequestsPartition(rs[..n], decode);
      JoinedSnoc(rs[..n], rs[n]);
      assert rs == rs[..n] + [rs[n]];
      var qs := RequestsOf(rs, decode);
      assert qs[..n] == RequestsOf(rs[..n], decode);
      JoinConcat(Buffers(qs[..n]), [qs[n].buffer]);
      assert Join([qs[n].buffer]) == qs[n].buffer;
    }
  }
}
