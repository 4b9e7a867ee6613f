/**
 The sparse index of an object: built while record batches pass through, read to find where in
 the object to start (components/object-storage/src/range_offload.rs,
 components/model/src/object.rs).
 */
module SparseIndex {
  import opened Prelude
  import opened RecordFormat

  /** What the index sees of a record: its length in bytes and its relative end offset. */
  datatype Rec = Rec(len: nat, end: nat)

  /** One index entry: the relative end offset of a record and the position where it starts. */
  datatype Entry = Entry(end: nat, pos: nat)

  // ---- Which records are indexed --------------------------------------------------

  /** Bytes of the first records. */
  function Pos(recs: seq<Rec>): nat {
    if recs == [] then 0 else Pos(recs[..|recs| - 1]) + recs[|recs| - 1].len
  }

  /** The pass-through size after `recs`: reset by an indexed record, grown by any other. */
  function Pass(recs: seq<Rec>, init: nat, sparse: nat): nat {
    if recs == [] then init
    else
      var before := Pass(recs[..|recs| - 1], init, sparse);
      if before >= sparse then 0 else before + recs[|recs| - 1].len
  }

  /** The index of `recs`: a record is indexed when the pass-through size before it has reached
      the sparse size. */
  function Index(recs: seq<Rec>, init: nat, sparse: nat): seq<Entry> {
    if recs == [] then []
    else
      var front, last := recs[..|recs| - 1], recs[|recs| - 1];
      Index(front, init, sparse) + if Pass(front, init, sparse) >= sparse then [Entry(last.end, Pos(front))] else []
  }

  function Shift(es: seq<Entry>, delta: nat): (r: seq<Entry>)
    ensures |r| == |es|
  {
    if es == [] then []
    else
      var last := es[|es| - 1];
      Shift(es[..|es| - 1], delta) + [Entry(last.end, last.pos + delta)]
  }

  lemma {:induction false} PosConcat(a: seq<Rec>, b: seq<Rec>)
    ensures Pos(a + b) == Pos(a) + Pos(b)
    decreases |b|
  {
    if b == [] {
      assert a + b == a;
    } else {
      PosConcat(a, b[..|b| - 1]);
      assert (a + b)[..|a + b| - 1] == a + b[..|b| - 1];
    }
  }

  lemma {:induction false} PassConcat(a: seq<Rec>, b: seq<Rec>, init: nat, sparse: nat)
    ensures Pass(a + b, init, sparse) == Pass(b, Pass(a, init, sparse), sparse)
    decreases |b|
  {
    if b == [] {
      assert a + b == a;
    } else {
      PassConcat(a, b[..|b| - 1], init, sparse);
      assert (a + b)[..|a + b| - 1] == a + b[..|b| - 1];
    }
  }

  lemma {:induction false} IndexSnoc(recs: seq<Rec>, rec: Rec, init: nat, sparse: nat)
    ensures Pos(recs + [rec]) == Pos(recs) + rec.len
    ensures Pass(recs + [rec], init, sparse)
         == if Pass(recs, init, sparse) >= sparse then 0 else Pass(recs, init, sparse) + rec.len
    ensures Index(recs + [rec], init, sparse)
         == Index(recs, init, sparse) + if Pass(recs, init, sparse) >= sparse then [Entry(rec.end, Pos(recs))] else []
  {
    assert (recs + [rec])[..|recs|] == recs;
  }

  lemma {:induction false} ShiftSnoc(es: seq<Entry>, e: Entry, delta: nat)
    ensures Shift(es + [e], delta) == Shift(es, delta) + [Entry(e.end, e.pos + delta)]
  {
    assert (es + [e])[..|es|] == es;
  }

  /** Indexing `a` and then `b` with the carried pass-through size selects the records that one
      pass over both selects and leaves the same remainder; the positions of the second part are
      relative to it, so they fall short by exactly the bytes of the first. */
  lemma {:induction false} SplitIndexing(a: seq<Rec>, b: seq<Rec>, init: nat, sparse: nat)
    ensures Index(a + b, init, sparse) == Index(a, init, sparse) + Shift(Index(b, Pass(a, init, sparse), sparse), Pos(a))
    ensures Pass(a + b, init, sparse) == Pass(b, Pass(a, init, sparse), sparse)
    decreases |b|
  {
    hide Index, Shift, Pass, Pos;
    PassConcat(a, b, init, sparse);
    if b == [] {
      NothingSplit(a, init, sparse);
      assert a + b == a;
    } else {
      var front, last := b[..|b| - 1], b[|b| - 1];
      SplitIndexing(a, front, init, sparse);
      SplitStep(a, front, last, init, sparse);
      assert front + [last] == b && (a + front) + [last] == a + b;
    }
  }

  lemma {:induction false} NothingSplit(a: seq<Rec>, init: nat, sparse: nat)
    ensures Index(a, init, sparse) + Shift(Index([], Pass(a, init, sparse), sparse), Pos(a)) == Index(a, init, sparse)
  {
    hide Pass, Pos;
  }

  lemma {:induction false} SplitStep(a: seq<Rec>, front: seq<Rec>, last: Rec, init: nat, sparse: nat)
    requires Index(a + front, init, sparse)
          == Index(a, init, sparse) + Shift(Index(front, Pass(a, init, sparse), sparse), Pos(a))
    ensures Index(a + front + [last], init, sparse)
         == Index(a, init, sparse) + Shift(Index(front + [last], Pass(a, init, sparse), sparse), Pos(a))
  {
    hide Index, Shift, Pass, Pos;
    var carried := Pass(a, init, sparse);
    var es := Index(front, carried, sparse);
    PosConcat(a, front);
    PassConcat(a, front, init, sparse);
    IndexSnoc(front, last, carried, sparse);
    IndexSnoc(a + front, last, init, sparse);
    ShiftSnoc(es, Entry(last.end, Pos(front)), Pos(a));
    assert es + [] == es;
  }

  /** The entry of record `i`, if it is indexed. */
  ghost predicate EntryFor(recs: seq<Rec>, init: nat, sparse: nat, e: Entry, i: nat) {
    i < |recs| && Pass(recs[..i], init, sparse) >= sparse && e == Entry(recs[i].end, Pos(recs[..i]))
  }

  /** Every entry names the true start and relative end of a record, and records that have passed
      the sparse size are the only ones indexed. */
  lemma {:induction false} EntriesAreRecords(recs: seq<Rec>, init: nat, sparse: nat, k: nat) returns (i: nat)
    requires k < |Index(recs, init, sparse)|
    ensures EntryFor(recs, init, sparse, Index(recs, init, sparse)[k], i)
    decreases |recs|
  {
    var n := |recs| - 1;
    var front := Index(recs[..n], init, sparse);
    if k < |front| {
      i := EntriesAreRecords(recs[..n], init, sparse, k);
      assert recs[..n][..i] == recs[..i];
    } else {
      i := n;
    }
  }

  /** Every record that has passed the sparse size is indexed. */
  lemma {:induction false} RecordsAreIndexed(recs: seq<Rec>, init: nat, sparse: nat, i: nat) returns (k: nat)
    requires i < |recs| && Pass(recs[..i], init, sparse) >= sparse
    ensures k < |Index(recs, init, sparse)| && EntryFor(recs, init, sparse, Index(recs, init, sparse)[k], i)
    decreases |recs|
  {
    var n := |recs| - 1;
    if i < n {
      assert recs[..n][..i] == recs[..i];
      k := RecordsAreIndexed(recs[..n], init, sparse, i);
    } else {
      k := |Index(recs[..n], init, sparse)|;
    }
  }

  /** The last entry lies at least the pass-through size back. */
  lemma {:induction false} LastEntryBehind(recs: seq<Rec>, init: nat, sparse: nat)
    ensures var es := Index(recs, init, sparse);
            es != [] ==> es[|es| - 1].pos + Pass(recs, init, sparse) <= Pos(recs)
    decreases |recs|
  {
    if recs != [] {
      LastEntryBehind(recs[..|recs| - 1], init, sparse);
    }
  }

  /** Entries are at least the sparse size apart. */
  lemma {:induction false} EntriesSpaced(recs: seq<Rec>, init: nat, sparse: nat, k: nat)
    requires k + 1 < |Index(recs, init, sparse)|
    ensures var es := Index(recs, init, sparse); es[k].pos + sparse <= es[k + 1].pos
    decreases |recs|
  {
    var n := |recs| - 1;
    var es := Index(recs[..n], init, sparse);
    if k + 1 < |es| {
      EntriesSpaced(recs[..n], init, sparse, k);
    } else {
      LastEntryBehind(recs[..n], init, sparse);
    }
  }

  // ---- Building the index from bytes ----------------------------------------------

  /** The end offset of a batch, unless the 64-bit sum overflows. */
  function EndOffset(meta: RecordBatchMeta): Option<nat> {
    var sum := AsU64(meta.baseOffset) + AsU64(meta.lastOffsetDelta);
    if sum > U64_MAX then None else Some(sum)
  }

  /** The end offset of a record, if its metadata can be read. */
  function RecordEnd(r: Record, decode: Decoder): Option<nat> {
    var meta := decode(r.metadata);
    if meta.Some? then EndOffset(meta.value) else None
  }

  /** The relative end that goes into the index; an end before the start cannot be subtracted. */
  function RelativeEnd(r: Record, decode: Decoder, start: nat): Option<nat> {
    var end := RecordEnd(r, decode);
    if end.Some? && end.value >= start then Some((end.value - start) % U32_BASE) else None
  }

  /** What the index sees of a record; its length is cast to 32 bits. */
  function RecOf(r: Record, decode: Decoder, start: nat): Rec {
    Rec(AsU32(r.Len()), RelativeEnd(r, decode, start).GetOr(0))
  }

  function RecsOf(rs: seq<Record>, decode: Decoder, start: nat): (recs: seq<Rec>)
    ensures |recs| == |rs|
  {
    if rs == [] then []
    else
      var n := |rs| - 1;
      RecsOf(rs[..n], decode, start) + [RecOf(rs[n], decode, start)]
  }

  /** The next record can be taken: if it is to be indexed its end can be read, otherwise the
      pass-through size does not overflow. */
  predicate Takes(pass: nat, r: Record, decode: Decoder, start: nat, sparse: nat) {
    if pass >= sparse then RelativeEnd(r, decode, start).Some? else pass + AsU32(r.Len()) <= U32_MAX
  }

  /** Every record in turn can be taken. */
  predicate IndexReadable(rs: seq<Record>, decode: Decoder, start: nat, init: nat, sparse: nat) {
    rs == [] || (var n := |rs| - 1;
                 && IndexReadable(rs[..n], decode, start, init, sparse)
                 && Takes(Pass(RecsOf(rs[..n], decode, start), init, sparse), rs[n], decode, start, sparse))
  }

  /** The position counter after the records. */
  function At(rs: seq<Record>): nat {
    if rs == [] then 0 else At(rs[..|rs| - 1]) + AsU32(rs[|rs| - 1].Len())
  }

  /** The position counter at the last record. */
  function LastPos(rs: seq<Record>): nat { if rs == [] then 0 else At(rs[..|rs| - 1]) }

  /** No record is as long as 4 GiB. */
  predicate Short(rs: seq<Record>) {
    forall i :: 0 <= i < |rs| ==> rs[i].Len() <= U32_MAX
  }

  /** The entry at place `k`: two big-endian 32-bit integers. */
  function EntryAt(b: bytes, k: nat): Entry
    requires 8 * k + 8 <= |b|
  {
    Entry(GetU32(b[8 * k..]), GetU32(b[8 * k + 4..]))
  }

  /** The entries that index bytes hold. */
  function Entries(b: bytes): (es: seq<Entry>)
    ensures |es| == |b| / 8
  {
    seq(|b| / 8, k requires 0 <= k < |b| / 8 => EntryAt(b, k))
  }

  lemma {:induction false} EntryAtEnd(index: bytes, e: Entry, k: nat)
    requires |index| == 8 * k && e.end <= U32_MAX && e.pos <= U32_MAX
    ensures EntryAt(index + PutU32(e.end) + PutU32(e.pos), k) == e
  {
    var b := index + PutU32(e.end) + PutU32(e.pos);
    U32RoundTrip(e.end, PutU32(e.pos));
    U32RoundTrip(e.pos, []);
    assert b[8 * k..] == PutU32(e.end) + PutU32(e.pos);
    assert b[8 * k + 4..] == PutU32(e.pos) + [];
  }

  lemma {:induction false} EntryAtKept(index: bytes, more: bytes, k: nat)
    requires 8 * k + 8 <= |index|
    ensures EntryAt(index + more, k) == EntryAt(index, k)
  {
    var b := index + more;
    assert b[8 * k..][..4] == index[8 * k..][..4];
    assert b[8 * k + 4..][..4] == index[8 * k + 4..][..4];
  }

  /** Writing one entry behind the others. */
  method PutEntry(index: bytes, end: nat, pos: nat) returns (r: bytes)
    requires end <= U32_MAX && pos <= U32_MAX && |index| % 8 == 0
    ensures |r| % 8 == 0 && Entries(r) == Entries(index) + [Entry(end, pos)]
  {
    r := index + PutU32(end) + PutU32(pos);
    ghost var more := PutU32(end) + PutU32(pos);
    assert r == index + more;
    EntryAtEnd(index, Entry(end, pos), |index| / 8);
    forall k | 0 <= k < |index| / 8
      ensures EntryAt(r, k) == EntryAt(index, k)
    {
      EntryAtKept(index, more, k);
    }
  }

  lemma {:induction false} RecsSnoc(rs: seq<Record>, r: Record, decode: Decoder, start: nat)
    ensures RecsOf(rs + [r], decode, start) == RecsOf(rs, decode, start) + [RecOf(r, decode, start)]
    ensures At(rs + [r]) == At(rs) + AsU32(r.Len())
  {
    assert (rs + [r])[..|rs|] == rs;
  }

  lemma {:induction false} ReadableSnoc(rs: seq<Record>, r: Record, decode: Decoder, start: nat, init: nat, sparse: nat)
    ensures IndexReadable(rs + [r], decode, start, init, sparse)
        <==> && IndexReadable(rs, decode, start, init, sparse)
             && Takes(Pass(RecsOf(rs, decode, start), init, sparse), r, decode, start, sparse)
  {
    assert (rs + [r])[..|rs|] == rs;
  }

  lemma {:induction false} ReadablePrefix(rs: seq<Record>, n: nat, decode: Decoder, start: nat, init: nat, sparse: nat)
    requires n <= |rs| && IndexReadable(rs, decode, start, init, sparse)
    ensures IndexReadable(rs[..n], decode, start, init, sparse)
    decreases |rs|
  {
    if n == |rs| {
      assert rs[..n] == rs;
    } else {
      var front := rs[..|rs| - 1];
      ReadablePrefix(front, n, decode, start, init, sparse);
      assert front[..n] == rs[..n];
    }
  }

  /** The end offset of the record whose bytes start at `at`, if it can be read there. */
  function EndAt(b: bytes, at: nat, decode: Decoder): Option<nat> {
    if |b| < at + 5 then None
    else
      var m := AsUsize(GetI32(b[at + 1..]));
      if |b| - at - 5 < m then None
      else
        var meta := decode(b[at + 5..at + 5 + m]);
        if meta.Some? then EndOffset(meta.value) else None
  }

  /** The payload is whole records, each in turn can be taken, the position of the last one does not
      overflow, and an end can be read there. */
  predicate Indexable(b: bytes, decode: Decoder, start: nat, init: nat, sparse: nat) {
    && Split(b).Some? && Split(b).value != []
    && IndexReadable(Split(b).value, decode, start, init, sparse)
    && LastPos(Split(b).value) < U32_MAX
    && EndAt(b, LastPos(Split(b).value), decode).Some?
  }

  function LastOf(rs: seq<Record>): Record
    requires rs != []
  {
    rs[|rs| - 1]
  }

  /** With records shorter than 4 GiB each, the position is the true one, so the end that is read there
      is the end of the last record. */
  lemma {:induction false} ShortEnd(b: bytes, decode: Decoder)
    requires Split(b).Some? && Split(b).value != [] && Short(Split(b).value)
    ensures EndAt(b, LastPos(Split(b).value), decode) == RecordEnd(LastOf(Split(b).value), decode)
  {
    hide Record.Bytes, EndAt, RecordEnd, FirstRecord, Split, At, Joined;
    var rs := Split(b).value;
    SplitSound(b);
    var n := |rs| - 1;
    ShortAt(rs[..n]);
    JoinedSnoc(rs[..n], rs[n]);
    assert rs[..n] + [rs[n]] == rs;
    EndAtRecord(b, Joined(rs[..n]), rs[n], decode);
  }

  lemma {:induction false} ShortAt(rs: seq<Record>)
    requires AllFit(rs) && Short(rs)
    ensures At(rs) == |Joined(rs)|
    decreases |rs|
  {
    hide Record.Bytes;
    if rs != [] {
      var n := |rs| - 1;
      ShortAt(rs[..n]);
      JoinedSnoc(rs[..n], rs[n]);
      assert rs == rs[..n] + [rs[n]];
    }
  }

  lemma {:induction false} EndAtRecord(b: bytes, before: bytes, r: Record, decode: Decoder)
    requires r.Fits() && b == before + r.Bytes()
    ensures EndAt(b, |before|, decode) == RecordEnd(r, decode)
  {
    MetadataIn(r);
    var at, m := |before|, |r.metadata|;
    assert b[at + 1..] == r.Bytes()[1..];
    assert b[at + 5..at + 5 + m] == r.Bytes()[5..5 + m];
  }

  /** A record that cannot be read or taken, or whose position overflows, spoils the whole payload. */
  lemma {:induction false} UnindexableRest(b: bytes, done: seq<Record>, pos: nat, decode: Decoder, start: nat, init: nat, sparse: nat)
    requires Walked(b, done, pos) && pos < |b|
    requires FirstRecord(b[pos..]).Some? ==>
               || At(done) > U32_MAX
               || !Takes(Pass(RecsOf(done, decode, start), init, sparse), FirstRecord(b[pos..]).value, decode, start, sparse)
    ensures !Indexable(b, decode, start, init, sparse)
  {
    hide Record.Bytes, EndAt, AsU32, Takes, At, IndexReadable, RecsOf, Pass;
    SplitAfter(b, done, pos);
    if Split(b).Some? && IndexReadable(Split(b).value, decode, start, init, sparse) {
      var first := FirstRecord(b[pos..]).value;
      PrefixNext(Split(b).value, done, Split(b[pos..]).value, first);
      UntakenNext(Split(b).value, done, first, decode, start, init, sparse);
    }
  }

  lemma {:induction false} UntakenNext(rs: seq<Record>, done: seq<Record>, first: Record, decode: Decoder, start: nat, init: nat, sparse: nat)
    requires |done| < |rs| && rs[..|done| + 1] == done + [first] && IndexReadable(rs, decode, start, init, sparse)
    ensures Takes(Pass(RecsOf(done, decode, start), init, sparse), first, decode, start, sparse)
    ensures At(done) <= LastPos(rs)
  {
    hide AsU32, Takes, At, IndexReadable, RecsOf, Pass;
    ReadablePrefix(rs, |done| + 1, decode, start, init, sparse);
    ReadableSnoc(done, first, decode, start, init, sparse);
    AtGrows(rs, |done|, |rs| - 1);
    assert rs[..|done|] == (done + [first])[..|done|] == done;
  }

  lemma {:induction false} AtGrows(rs: seq<Record>, i: nat, j: nat)
    requires i <= j <= |rs|
    ensures At(rs[..i]) <= At(rs[..j])
    decreases j
  {
    if i < j {
      AtGrows(rs, i, j - 1);
      assert rs[..j][..j - 1] == rs[..j - 1];
    }
  }

  lemma {:induction false} PrefixNext(rs: seq<Record>, done: seq<Record>, rest: seq<Record>, first: Record)
    requires rs == done + rest && rest != [] && rest[0] == first
    ensures |done| < |rs| && rs[..|done| + 1] == done + [first]
  {
  }

  /** One record at the head of `rest`; its relative end only when it is to be indexed. */
  method NextRecord(rest: bytes, hit: bool, start: nat, decode: Decoder) returns (r: Result<(nat, nat), DecodeError>)
    requires |rest| <= ISIZE_MAX && rest != []
    ensures r.Ok? <==> FirstRecord(rest).Some? && (hit ==> RelativeEnd(FirstRecord(rest).value, decode, start).Some?)
    ensures r.Ok? ==> r.value.0 == FirstRecord(rest).value.Len() && r.value.1 <= U32_MAX
    ensures r.Ok? && hit ==> r.value.1 == RelativeEnd(FirstRecord(rest).value, decode, start).value
  {
    if |rest| < 9 {
      return Err(DataLengthMismatch);
    }
    if rest[0] != MAGIC0 {
      return Err(InvalidMagic);
    }
    var metadataLen := AsUsize(GetI32(rest[1..]));
    if |rest| - 5 < metadataLen {
      return Err(DataLengthMismatch);
    }
    var relative := 0;
    if hit {
      var meta := decode(rest[5..5 + metadataLen]);
      if meta.None? {
        return Err(InvalidFlatbuffer);
      }
      var end := EndOffset(meta.value);
      if end.None? || end.value < start {
        return Err(Panic);  // the sum or the difference overflows
      }
      relative := (end.value - start) % U32_BASE;
    }
    if |rest| - 5 - metadataLen < 4 {
      return Err(Panic);  // the length field is read without a check
    }
    var payloadLen := AsUsize(GetI32(rest[5 + metadataLen..]));
    if |rest| - 9 - metadataLen < payloadLen {
      return Err(DataLengthMismatch);
    }
    return Ok((9 + metadataLen + payloadLen, relative));
  }

  lemma {:induction false} MetadataIn(r: Record)
    requires r.Fits()
    ensures AsUsize(GetI32(r.Bytes()[1..])) == |r.metadata|
    ensures r.Bytes()[5..5 + |r.metadata|] == r.metadata
  {
    var rest := r.metadata + PutU32(|r.payload|) + r.payload;
    U32RoundTrip(|r.metadata|, rest);
    assert r.Bytes()[1..] == PutU32(|r.metadata|) + rest;
  }

  /** What the indexing loop has established after the records `done`. */
  ghost predicate Scanned(b: bytes, done: seq<Record>, pos: nat, pass: nat, entries: seq<Entry>,
                          decode: Decoder, start: nat, init: nat, sparse: nat)
  {
    var recs := RecsOf(done, decode, start);
    && Walked(b, done, pos)
    && Pos(recs) == At(done)
    && pass == Pass(recs, init, sparse) <= U32_MAX
    && entries == Index(recs, init, sparse)
    && IndexReadable(done, decode, start, init, sparse)
  }

  lemma {:induction false} ScanOn(b: bytes, done: seq<Record>, pos: nat, pass: nat, entries: seq<Entry>,
               decode: Decoder, start: nat, init: nat, sparse: nat)
    requires Scanned(b, done, pos, pass, entries, decode, start, init, sparse) && FirstRecord(b[pos..]).Some?
    requires Takes(pass, FirstRecord(b[pos..]).value, decode, start, sparse)
    ensures var first := FirstRecord(b[pos..]).value;
            var done', pos' := done + [first], pos + first.Len();
            && At(done') == At(done) + AsU32(first.Len())
            && if pass >= sparse then
                 Scanned(b, done', pos', 0, entries + [Entry(RelativeEnd(first, decode, start).value, At(done))], decode, start, init, sparse)
               else Scanned(b, done', pos', pass + AsU32(first.Len()), entries, decode, start, init, sparse)
  {
    var first := FirstRecord(b[pos..]).value;
    var recs := RecsOf(done, decode, start);
    WalkOn(b, done, pos);
    RecsSnoc(done, first, decode, start);
    IndexSnoc(recs, RecOf(first, decode, start), init, sparse);
    ReadableSnoc(done, first, decode, start, init, sparse);
    assert entries + [] == entries;
  }

  /** The end offset read again from the position of the last record. */
  method LastEnd(payload: bytes, recordPosition: nat, decode: Decoder) returns (r: Result<nat, DecodeError>)
    requires |payload| <= ISIZE_MAX
    ensures r.Ok? <==> recordPosition < U32_MAX && EndAt(payload, recordPosition, decode).Some?
    ensures r.Ok? ==> r.value == EndAt(payload, recordPosition, decode).value
  {
    if recordPosition + 1 > U32_MAX || |payload| < recordPosition + 5 {
      return Err(Panic);  // the position overflows, or there is no record to go back to
    }
    var metadataLen := AsUsize(GetI32(payload[recordPosition + 1..]));
    if |payload| - recordPosition - 5 < metadataLen {
      return Err(Panic);
    }
    var meta := decode(payload[recordPosition + 5..recordPosition + 5 + metadataLen]);
    if meta.None? {
      return Err(InvalidFlatbuffer);
    }
    var end := EndOffset(meta.value);
    if end.None? {
      return Err(Panic);
    }
    return Ok(end.value);
  }

  lemma {:induction false} ScanDone(b: bytes, done: seq<Record>)
    requires Walked(b, done, |b|)
    ensures Split(b) == Some(done) && b == Joined(done)
  {
    SplitAfter(b, done, |b|);
    assert done + [] == done;
    assert b[..|b|] == b;
  }

  /** The state of the indexing loop. */
  datatype Scan = Scan(pos: nat, index: bytes, pass: nat, recordPosition: nat, lastRecordSize: nat) {
    ghost predicate Valid(b: bytes, done: seq<Record>, decode: Decoder, start: nat, init: nat, sparse: nat) {
      && Scanned(b, done, pos, pass, Entries(index), decode, start, init, sparse)
      && |index| % 8 == 0
      && recordPosition + lastRecordSize == At(done)
      && recordPosition == LastPos(done)
      && (pos == 0 <==> done == [])
    }
  }

  /** One turn of the indexing loop, from the records `done` to the next one. */
  method ScanNext(payload: bytes, s: Scan, ghost done: seq<Record>, decode: Decoder, start: nat, ghost init: nat, sparse: nat)
    returns (r: Result<Scan, DecodeError>, ghost done': seq<Record>)
    requires |payload| <= ISIZE_MAX && s.Valid(payload, done, decode, start, init, sparse) && s.pos < |payload|
    ensures r.Err? ==> !Indexable(payload, decode, start, init, sparse)
    ensures r.Ok? ==> s.pos < r.value.pos <= |payload| && r.value.Valid(payload, done', decode, start, init, sparse)
  {
    hide Record.Bytes, FirstRecord, Split, EntryAt, RelativeEnd, Index, Pass, Pos, RecsOf, IndexReadable, Joined, AsU32;
    var hit := s.pass >= sparse;
    done' := done;
    var next := NextRecord(payload[s.pos..], hit, start, decode);
    if next.Err? {
      UnindexableRest(payload, done, s.pos, decode, start, init, sparse);
      return Err(next.error), done;
    }
    var (size, relative) := next.value;
    var recordPosition, lastRecordSize := s.recordPosition + s.lastRecordSize, AsU32(size);
    if recordPosition > U32_MAX || (!hit && s.pass + lastRecordSize > U32_MAX) {
      UnindexableRest(payload, done, s.pos, decode, start, init, sparse);
      return Err(Panic), done;
    }
    ScanOn(payload, done, s.pos, s.pass, Entries(s.index), decode, start, init, sparse);
    done' := done + [FirstRecord(payload[s.pos..]).value];
    assert done'[..|done|] == done;
    if hit {
      var index := PutEntry(s.index, relative, recordPosition);
      return Ok(Scan(s.pos + size, index, 0, recordPosition, lastRecordSize)), done';
    } else {
      return Ok(Scan(s.pos + size, s.index, s.pass + lastRecordSize, recordPosition, lastRecordSize)), done';
    }
  }

  /** The indexing loop over a whole payload. */
  method ScanAll(payload: bytes, start: nat, init: u32, sparse: nat, decode: Decoder)
    returns (r: Result<Scan, DecodeError>, ghost done: seq<Record>)
    requires |payload| <= ISIZE_MAX && 0 < sparse
    ensures r.Err? ==> !Indexable(payload, decode, start, init, sparse)
    ensures r.Ok? ==> r.value.pos == |payload| && r.value.Valid(payload, done, decode, start, init, sparse)
  {
    var s := Scan(0, [], init, 0, 0);
    done := [];
    while s.pos < |payload|
      invariant s.pos <= |payload| && s.Valid(payload, done, decode, start, init, sparse)
      decreases |payload| - s.pos
    {
      var next, done' := ScanNext(payload, s, done, decode, start, init, sparse);
      if next.Err? {
        return Err(next.error), done;
      }
      s, done := next.value, done';
    }
    return Ok(s), done;
  }

  /** `gen_sparse_index`: succeeds exactly on indexable payloads, however they are cut into buffers,
      and returns the index, the end offset read at the last position and the remaining pass-through
      size. */
  method GenSparseIndex(start: nat, parts: seq<bytes>, init: u32, sparse: nat, decode: Decoder)
    returns (r: Result<(bytes, nat, u32), DecodeError>)
    requires |Join(parts)| <= ISIZE_MAX && 0 < sparse
    ensures r.Ok? <==> Indexable(Join(parts), decode, start, init, sparse)
    ensures r.Ok? ==>
              var rs := Split(Join(parts)).value;
              var recs := RecsOf(rs, decode, start);
              && |r.value.0| % 8 == 0 && Entries(r.value.0) == Index(recs, init, sparse)
              && r.value.1 == EndAt(Join(parts), LastPos(rs), decode).value
              && (Short(rs) ==> RecordEnd(LastOf(rs), decode) == Some(r.value.1))
              && r.value.2 == Pass(recs, init, sparse)
  {
    hide EndAt, RecordEnd, Record.Bytes, FirstRecord, Short, Split;
    var payload := Join(parts);
    var scan, done := ScanAll(payload, start, init, sparse, decode);
    if scan.Err? {
      return Err(scan.error);
    }
    ScanDone(payload, done);
    if |payload| == 0 {
      return Err(Panic);  // there is no last record to go back to
    }
    var end := LastEnd(payload, scan.value.recordPosition, decode);
    if end.Err? {
      return Err(end.error);
    }
    if Short(done) {
      ShortEnd(payload, decode);
    }
    return Ok((scan.value.index, end.value, scan.value.pass));
  }

  // ---- Payloads indexed one after the other ---------------------------------------

  lemma {:induction false} RecsConcat(ra: seq<Record>, rb: seq<Record>, decode: Decoder, start: nat)
    ensures RecsOf(ra + rb, decode, start) == RecsOf(ra, decode, start) + RecsOf(rb, decode, start)
    decreases |rb|
  {
    hide RelativeEnd;
    if rb == [] {
      assert ra + rb == ra;
    } else {
      var n := |rb| - 1;
      RecsConcat(ra, rb[..n], decode, start);
      assert (ra + rb)[..|ra| + n] == ra + rb[..n];
    }
  }

  lemma {:induction false} ReadableConcat(ra: seq<Record>, rb: seq<Record>, decode: Decoder, start: nat, init: nat, sparse: nat)
    ensures var carried := Pass(RecsOf(ra, decode, start), init, sparse);
            IndexReadable(ra + rb, decode, start, init, sparse)
            <==> IndexReadable(ra, decode, start, init, sparse) && IndexReadable(rb, decode, start, carried, sparse)
    decreases |rb|
  {
    if rb == [] {
      assert ra + rb == ra;
    } else {
      var n := |rb| - 1;
      var carried := Pass(RecsOf(ra, decode, start), init, sparse);
      ReadableConcat(ra, rb[..n], decode, start, init, sparse);
      assert rb[..n] + [rb[n]] == rb && (ra + rb[..n]) + [rb[n]] == ra + rb;
      ReadableSnoc(ra + rb[..n], rb[n], decode, start, init, sparse);
      ReadableSnoc(rb[..n], rb[n], decode, start, carried, sparse);
      RecsConcat(ra, rb[..n], decode, start);
      PassConcat(RecsOf(ra, decode, start), RecsOf(rb[..n], decode, start), init, sparse);
    }
  }

  /** Indexing a payload in two writes, with the pass-through size carried over, is indexing it at
      once: the same payloads are accepted, as long as one position counter can go through both, the
      same records are selected, and the end offset and the remainder agree; the positions of the
      second write fall short by the bytes of the first. */
  lemma {:induction false} SplitPayloads(a: bytes, b: bytes, decode: Decoder, start: nat, init: nat, sparse: nat)
    requires Split(a).Some? && Split(b).Some? && Split(b).value != [] && Short(Split(a).value)
    ensures var ra, rb := Split(a).value, Split(b).value;
            var recsA, recsB := RecsOf(ra, decode, start), RecsOf(rb, decode, start);
            var carried := Pass(recsA, init, sparse);
            && Split(a + b) == Some(ra + rb)
            && (Indexable(a + b, decode, start, init, sparse)
                <==> && IndexReadable(ra, decode, start, init, sparse) && Indexable(b, decode, start, carried, sparse)
                     && |a| + LastPos(rb) < U32_MAX)
            && EndAt(a + b, LastPos(ra + rb), decode) == EndAt(b, LastPos(rb), decode)
            && var recs := RecsOf(ra + rb, decode, start);
               && Index(recs, init, sparse) == Index(recsA, init, sparse) + Shift(Index(recsB, carried, sparse), |a|)
               && Pass(recs, init, sparse) == Pass(recsB, carried, sparse)
  {
    hide Record.Bytes, FirstRecord, RelativeEnd, EndAt, IndexReadable, Index, Pass, Shift, RecsOf, At, Pos;
    var ra, rb := Split(a).value, Split(b).value;
    SplitSound(a);
    SplitPrefix(a + b, ra, b);
    RecsConcat(ra, rb, decode, start);
    ReadableConcat(ra, rb, decode, start, init, sparse);
    SplitIndexing(RecsOf(ra, decode, start), RecsOf(rb, decode, start), init, sparse);
    ShortAt(ra);
    RecsAt(ra, decode, start);
    LastPosConcat(ra, rb);
    EndAtBehind(a, b, LastPos(rb), decode);
  }

  lemma {:induction false} RecsAt(rs: seq<Record>, decode: Decoder, start: nat)
    ensures Pos(RecsOf(rs, decode, start)) == At(rs)
    decreases |rs|
  {
    if rs != [] {
      var n := |rs| - 1;
      RecsAt(rs[..n], decode, start);
      var recs := RecsOf(rs, decode, start);
      assert recs[..n] == RecsOf(rs[..n], decode, start);
    }
  }

  lemma {:induction false} AtConcat(ra: seq<Record>, rb: seq<Record>)
    ensures At(ra + rb) == At(ra) + At(rb)
    decreases |rb|
  {
    if rb == [] {
      assert ra + rb == ra;
    } else {
      var n := |rb| - 1;
      AtConcat(ra, rb[..n]);
      assert (ra + rb)[..|ra| + n] == ra + rb[..n];
    }
  }

  lemma {:induction false} LastPosConcat(ra: seq<Record>, rb: seq<Record>)
    requires rb != []
    ensures LastPos(ra + rb) == At(ra) + LastPos(rb)
  {
    var n := |rb| - 1;
    AtConcat(ra, rb[..n]);
    assert (ra + rb)[..|ra| + n] == ra + rb[..n];
  }

  lemma {:induction false} EndAtBehind(a: bytes, b: bytes, at: nat, decode: Decoder)
    ensures EndAt(a + b, |a| + at, decode) == EndAt(b, at, decode)
  {
    if at + 5 <= |b| {
      assert (a + b)[|a| + at + 1..] == b[at + 1..];
      var m := AsUsize(GetI32(b[at + 1..]));
      if m <= |b| - at - 5 {
        assert (a + b)[|a| + at + 5..|a| + at + 5 + m] == b[at + 5..at + 5 + m];
      }
    }
  }

  // ---- Reading the index ----------------------------------------------------------

  /** The position of the last entry that ends at or before `offset`; 0 without one. */
  function StartIn(es: seq<Entry>, base: nat, offset: nat): nat {
    if es == [] then 0
    else
      var last := es[|es| - 1];
      if base + last.end <= offset then last.pos else StartIn(es[..|es| - 1], base, offset)
  }

  /** The size hint after the search for the start: every entry that ends beyond the offset adds its
      distance from the start found so far, unless the difference or the sum overflows. */
  function HintIn(es: seq<Entry>, base: nat, offset: nat, hint: nat): Option<nat> {
    if es == [] then Some(hint)
    else
      var front, last := es[..|es| - 1], es[|es| - 1];
      var before := HintIn(front, base, offset, hint);
      if before.None? || base + last.end <= offset then before
      else HintOf(before.value, StartIn(front, base, offset), last.pos)
  }

  function HintOf(hint: nat, start: nat, pos: nat): Option<nat> {
    if pos < start || hint + (pos - start) > U32_MAX then None else Some(hint + (pos - start))
  }

  lemma {:induction false} StartNone(es: seq<Entry>, base: nat, offset: nat, hint: nat)
    ensures StartIn(es[..0], base, offset) == 0 && HintIn(es[..0], base, offset, hint) == Some(hint)
  {
  }

  lemma {:induction false} StartStep(es: seq<Entry>, i: nat, base: nat, offset: nat, hint: nat)
    requires i < |es|
    ensures StartIn(es[..i + 1], base, offset) == if base + es[i].end <= offset then es[i].pos else StartIn(es[..i], base, offset)
    ensures var before := HintIn(es[..i], base, offset, hint);
            HintIn(es[..i + 1], base, offset, hint)
            == if before.None? || base + es[i].end <= offset then before
               else HintOf(before.value, StartIn(es[..i], base, offset), es[i].pos)
  {
    assert es[..i + 1][..i] == es[..i];
  }

  /** An overflow on the way is not undone. */
  lemma {:induction false} HintLost(es: seq<Entry>, i: nat, base: nat, offset: nat, hint: nat)
    requires i <= |es| && HintIn(es[..i], base, offset, hint).None?
    ensures HintIn(es, base, offset, hint).None?
    decreases |es| - i
  {
    if i < |es| {
      StartStep(es, i, base, offset, hint);
      HintLost(es, i + 1, base, offset, hint);
    } else {
      assert es[..i] == es;
    }
  }

  /** The entry ends the read: it reaches the end offset, or the size hint is used up. */
  predicate EndsRead(e: Entry, base: nat, endOffset: Option<nat>, start: nat, hint: nat) {
    || (endOffset.Some? && base + e.end >= endOffset.value)
    || (e.pos >= start && e.pos - start >= hint)
  }

  ghost predicate IsFirstEnd(es: seq<Entry>, k: nat, base: nat, endOffset: Option<nat>, start: nat, hint: nat) {
    && k <= |es|
    && (k < |es| ==> EndsRead(es[k], base, endOffset, start, hint))
    && forall i :: 0 <= i < k ==> !EndsRead(es[i], base, endOffset, start, hint)
  }

  datatype ObjectIndex = ObjectIndex(startOffset: nat, endOffsetDelta: nat, dataLen: u32, sparseIndex: bytes) {
    /** Where the read starts; a position hint of the caller replaces the search. */
    function Start(offset: nat, position: Option<nat>): nat {
      if offset == startOffset then 0
      else position.GetOr(StartIn(Entries(sparseIndex), startOffset, offset))
    }

    /** The size hint for the end; a search that finds no entry sets it to the whole object. */
    function Hint(offset: nat, position: Option<nat>, hint: nat): Option<nat> {
      if offset == startOffset || position.Some? then Some(hint)
      else
        var found := HintIn(Entries(sparseIndex), startOffset, offset, hint);
        if found.Some? && Start(offset, None) == 0 then Some(dataLen) else found
    }

    /** `find_bound`: nothing outside the object; inside, it aborts exactly when the size hint overflows
        and otherwise returns the start and the position of the first entry that ends the read. */
    method FindBound(offset: nat, endOffset: Option<nat>, sizeHint: u32, position: Option<u32>)
      returns (r: Result<Option<(nat, nat)>, Abort>, ghost k: nat)
      requires |sparseIndex| % 8 == 0
      ensures r == Ok(None) <==> startOffset + endOffsetDelta <= offset || (endOffset.Some? && endOffset.value <= startOffset)
      ensures r.Err? <==> r != Ok(None) && Hint(offset, position, sizeHint).None?
      ensures offset == startOffset || position.Some? ==> Hint(offset, position, sizeHint) == Some(sizeHint)
      ensures r.Ok? && r.value.Some? ==>
                var es := Entries(sparseIndex);
                && r.value.value.0 == Start(offset, position)
                && IsFirstEnd(es, k, startOffset, endOffset, Start(offset, position), Hint(offset, position, sizeHint).value)
                && r.value.value.1 == if k < |es| then es[k].pos else dataLen
    {
      k := 0;
      if offset >= startOffset + endOffsetDelta {
        return Ok(None), k;
      }
      if endOffset.Some? && endOffset.value <= startOffset {
        return Ok(None), k;
      }
      var start, hint: nat := 0, sizeHint;
      if offset != startOffset {
        if position.Some? {
          start := position.value;
        } else {
          var found := FindStart(offset, sizeHint);
          if found.Err? {
            return Err(Overflow), k;
          }
          start, hint := found.value.0, found.value.1;
        }
      }
      var end: nat;
      end, k := FindEnd(endOffset, start, hint);
      return Ok(Some((start, end))), k;
    }

    method FindStart(offset: nat, sizeHint: u32) returns (r: Result<(nat, nat), Abort>)
      requires |sparseIndex| % 8 == 0 && offset != startOffset
      ensures r.Err? <==> Hint(offset, None, sizeHint).None?
      ensures r.Ok? ==> r.value.0 == Start(offset, None) && Some(r.value.1) == Hint(offset, None, sizeHint)
    {
      hide EntryAt, StartIn, HintIn;
      ghost var es := Entries(sparseIndex);
      var position, hint: nat := 0, sizeHint;
      StartNone(es, startOffset, offset, sizeHint);
      var i: nat := 0;
      while i < |sparseIndex| / 8
        invariant i <= |es|
        invariant position == StartIn(es[..i], startOffset, offset)
        invariant HintIn(es[..i], startOffset, offset, sizeHint) == Some(hint)
      {
        var e := EntryAt(sparseIndex, i);
        StartStep(es, i, startOffset, offset, sizeHint);
        if startOffset + e.end <= offset {
          position := e.pos;
        } else {
          if e.pos < position || hint + (e.pos - position) > U32_MAX {
            HintLost(es, i + 1, startOffset, offset, sizeHint);
            return Err(Overflow);
          }
          hint := hint + (e.pos - position);
        }
        i := i + 1;
      }
      assert es[..|es|] == es;
      if position == 0 {
        hint := dataLen;
      }
      return Ok((position, hint));
    }

    method FindEnd(endOffset: Option<nat>, start: nat, hint: nat) returns (end: nat, ghost k: nat)
      requires |sparseIndex| % 8 == 0
      ensures var es := Entries(sparseIndex);
              && IsFirstEnd(es, k, startOffset, endOffset, start, hint)
              && end == if k < |es| then es[k].pos else dataLen
    {
      ghost var es := Entries(sparseIndex);
      end := dataLen;
      var i: nat := 0;
      while i < |sparseIndex| / 8
        invariant i <= |es|
        invariant forall j :: 0 <= j < i ==> !EndsRead(es[j], startOffset, endOffset, start, hint)
      {
        var e := EntryAt(sparseIndex, i);
        assert es[i] == e;
        if endOffset.Some? && startOffset + e.end >= endOffset.value {
          return e.pos, i;
        }
        if e.pos < start {
          i := i + 1;
          continue;
        }
        if e.pos - start >= hint {
          return e.pos, i;
        }
        i := i + 1;
      }
      k := i;
    }
  }

  // ---- The seek bound -------------------------------------------------------------

  /** Record `j` holds the relative offset: the records before it end at or before the offset, the
      records from it on end beyond it. */
  ghost predicate HeldBy(recs: seq<Rec>, relative: nat, j: nat) {
    && j < |recs|
    && (forall i :: 0 <= i < j ==> recs[i].end <= relative)
    && (forall i :: j <= i < |recs| ==> relative < recs[i].end)
  }

  ghost predicate NoLonger(recs: seq<Rec>, most: nat) {
    forall i :: 0 <= i < |recs| ==> recs[i].len <= most
  }

  /** The start found among records that all end at or before the offset: it is where one of them
      starts, and the pass-through size bounds how far back it lies. */
  lemma {:induction false} StartBehind(recs: seq<Rec>, init: nat, sparse: nat, base: nat, relative: nat, most: nat)
    requires 0 < sparse && NoLonger(recs, most) && forall i :: 0 <= i < |recs| ==> recs[i].end <= relative
    ensures var s := StartIn(Index(recs, init, sparse), base, base + relative);
            && s <= Pos(recs)
            && (recs != [] ==> Pos(recs) - s <= Pass(recs, init, sparse) + most
                               && Pass(recs, init, sparse) < sparse + most)
    decreases |recs|
  {
    if recs != [] {
      var n := |recs| - 1;
      StartBehind(recs[..n], init, sparse, base, relative, most);
      var es := Index(recs[..n], init, sparse);
      assert es + [] == es;
      var e := Entry(recs[n].end, Pos(recs[..n]));
      assert (es + [e])[..|es|] == es;
    }
  }

  /** Records that end beyond the offset do not move the start. */
  lemma {:induction false} StartStays(recs: seq<Rec>, init: nat, sparse: nat, base: nat, relative: nat, j: nat)
    requires j <= |recs| && forall i :: j <= i < |recs| ==> relative < recs[i].end
    ensures StartIn(Index(recs, init, sparse), base, base + relative)
         == StartIn(Index(recs[..j], init, sparse), base, base + relative)
    decreases |recs|
  {
    if j == |recs| {
      assert recs[..j] == recs;
    } else {
      var n := |recs| - 1;
      StartStays(recs[..n], init, sparse, base, relative, j);
      assert recs[..n][..j] == recs[..j];
      var es := Index(recs[..n], init, sparse);
      assert es + [] == es;
      var e := Entry(recs[n].end, Pos(recs[..n]));
      assert (es + [e])[..|es|] == es;
    }
  }

  lemma {:induction false} PosGrows(recs: seq<Rec>, i: nat, j: nat)
    requires i <= j <= |recs|
    ensures Pos(recs[..i]) <= Pos(recs[..j])
  {
    PosConcat(recs[..i], recs[i..j]);
    assert recs[..i] + recs[i..j] == recs[..j];
  }

  /** The index was written in one pass over `recs`, the data of the object; no record is empty. */
  ghost predicate IndexOf(x: ObjectIndex, recs: seq<Rec>, init: nat, sparse: nat) {
    && 0 < sparse
    && |x.sparseIndex| % 8 == 0 && Entries(x.sparseIndex) == Index(recs, init, sparse)
    && x.dataLen == Pos(recs)
    && forall i :: 0 <= i < |recs| ==> 0 < recs[i].end
  }

  /** A read of `offset` never starts behind the record that holds it, and starts less than the
      sparse size and two records before it. */
  lemma {:induction false} SeekStart(x: ObjectIndex, recs: seq<Rec>, init: nat, sparse: nat, offset: nat, j: nat, most: nat)
    requires IndexOf(x, recs, init, sparse) && NoLonger(recs, most)
    requires x.startOffset <= offset && HeldBy(recs, offset - x.startOffset, j)
    ensures x.Start(offset, None) <= Pos(recs[..j]) < x.Start(offset, None) + sparse + 2 * most
  {
    var relative := offset - x.startOffset;
    if relative == 0 {
      assert 0 < recs[0].end && j == 0;
    } else {
      StartStays(recs, init, sparse, x.startOffset, relative, j);
      StartBehind(recs[..j], init, sparse, x.startOffset, relative, most);
    }
  }

  /** The bytes to read are in order and inside the object; they are as many as the hint asks for, unless
      they reach the end offset or the end of the object, and no earlier entry would do. */
  lemma {:induction false} SeekEnd(x: ObjectIndex, recs: seq<Rec>, init: nat, sparse: nat, offset: nat, endOffset: Option<nat>, hint: nat, j: nat, k: nat)
    requires IndexOf(x, recs, init, sparse)
    requires x.startOffset <= offset && HeldBy(recs, offset - x.startOffset, j)
    requires endOffset.Some? ==> offset < endOffset.value
    requires IsFirstEnd(Entries(x.sparseIndex), k, x.startOffset, endOffset, x.Start(offset, None), hint)
    ensures var es, start := Entries(x.sparseIndex), x.Start(offset, None);
            var end := if k < |es| then es[k].pos else x.dataLen;
            && start <= end <= x.dataLen
            && (k < |es| && end < start + hint ==> endOffset.Some? && endOffset.value <= x.startOffset + es[k].end)
            && (forall i :: 0 <= i < k ==> es[i].pos < start + hint && (endOffset.Some? ==> x.startOffset + es[i].end < endOffset.value))
  {
    var es := Entries(x.sparseIndex);
    var most := Longest(recs);
    SeekStart(x, recs, init, sparse, offset, j, most);
    assert recs[..|recs|] == recs;
    PosGrows(recs, j, |recs|);
    if k < |es| {
      var i := EntriesAreRecords(recs, init, sparse, k);
      PosGrows(recs, i, |recs|);
      if endOffset.Some? && x.startOffset + es[k].end >= endOffset.value {
        assert j <= i;
        PosGrows(recs, j, i);
      }
    }
  }

  ghost function Longest(recs: seq<Rec>): (most: nat)
    ensures NoLonger(recs, most)
  {
    if recs == [] then 0 else Max(Longest(recs[..|recs| - 1]), recs[|recs| - 1].len)
  }

  /** The records are whole in the payload and end one behind the other, within 2^32 offsets of `start`. */
  ghost predicate InOrder(rs: seq<Record>, decode: Decoder, start: nat) {
    && Short(rs)
    && (forall i :: 0 <= i < |rs| ==> RecordEnd(rs[i], decode).Some? && start < RecordEnd(rs[i], decode).value <= start + U32_MAX)
    && forall i, j :: 0 <= i < j < |rs| ==> RecordEnd(rs[i], decode).value <= RecordEnd(rs[j], decode).value
  }

  lemma {:induction false} RecsAtEach(rs: seq<Record>, decode: Decoder, start: nat, i: nat)
    requires i < |rs|
    ensures RecsOf(rs, decode, start)[i] == RecOf(rs[i], decode, start) && RecsOf(rs, decode, start)[..i] == RecsOf(rs[..i], decode, start)
    decreases |rs|
  {
    var n := |rs| - 1;
    if i < n {
      RecsAtEach(rs[..n], decode, start, i);
      assert rs[..n][..i] == rs[..i];
    }
  }

  /** What the index holds of a record is its true end, relative to the start of the object. */
  lemma {:induction false} TrueEnds(rs: seq<Record>, decode: Decoder, start: nat, i: nat)
    requires InOrder(rs, decode, start) && i < |rs|
    ensures start + RecsOf(rs, decode, start)[i].end == RecordEnd(rs[i], decode).value
  {
    RecsAtEach(rs, decode, start, i);
    RelativeExact(rs[i], decode, start);
  }

  lemma {:induction false} RelativeExact(r: Record, decode: Decoder, start: nat)
    requires RecordEnd(r, decode).Some? && start <= RecordEnd(r, decode).value <= start + U32_MAX
    ensures RelativeEnd(r, decode, start) == Some(RecordEnd(r, decode).value - start)
  {
    hide RecordEnd;
  }

  /** A batch that names its offset ends there plus its number of offsets. */
  lemma {:induction false} BatchEnd(r: Record, decode: Decoder, meta: RecordBatchMeta)
    requires decode(r.metadata) == Some(meta) && meta.baseOffset >= 0 && meta.lastOffsetDelta >= 0
    ensures RecordEnd(r, decode) == Some(meta.baseOffset as int + meta.lastOffsetDelta as int)
  {
  }

  lemma {:induction false} HeldInOrder(rs: seq<Record>, decode: Decoder, start: nat, offset: nat, j: nat, most: nat)
    requires InOrder(rs, decode, start) && start <= offset && j < |rs| && offset < RecordEnd(rs[j], decode).value
    requires j > 0 ==> RecordEnd(rs[j - 1], decode).value <= offset
    requires forall i :: 0 <= i < |rs| ==> rs[i].Len() <= most
    ensures HeldBy(RecsOf(rs, decode, start), offset - start, j) && NoLonger(RecsOf(rs, decode, start), most)
    ensures AllFit(rs) ==> AllFit(rs[..j]) && Short(rs[..j])
  {
    hide RecordEnd, RecsOf;
    var recs := RecsOf(rs, decode, start);
    forall i | 0 <= i < |rs|
      ensures recs[i].len <= most && start + recs[i].end == RecordEnd(rs[i], decode).value
    {
      TrueEnds(rs, decode, start, i);
      RecsAtEach(rs, decode, start, i);
    }
  }

  /** The index of an object was written in one pass over the records `rs`. A read of an offset starts at
      or before the first byte of the first record that ends beyond it, and less than the sparse size and
      two records before that. */
  lemma {:induction false} SeekRecord(x: ObjectIndex, rs: seq<Record>, decode: Decoder, init: nat, sparse: nat, offset: nat, j: nat, most: nat)
    requires AllFit(rs) && InOrder(rs, decode, x.startOffset) && IndexOf(x, RecsOf(rs, decode, x.startOffset), init, sparse)
    requires x.startOffset <= offset && j < |rs| && offset < RecordEnd(rs[j], decode).value
    requires j > 0 ==> RecordEnd(rs[j - 1], decode).value <= offset
    requires forall i :: 0 <= i < |rs| ==> rs[i].Len() <= most
    ensures x.Start(offset, None) <= |Joined(rs[..j])| < x.Start(offset, None) + sparse + 2 * most
  {
    hide IndexOf, RecordEnd, Index, Record.Bytes, Joined, HeldBy, NoLonger, InOrder, ObjectIndex.Start, RecsOf, At, Pos;
    var recs := RecsOf(rs, decode, x.startOffset);
    HeldInOrder(rs, decode, x.startOffset, offset, j, most);
    SeekStart(x, recs, init, sparse, offset, j, most);
    RecsAtEach(rs, decode, x.startOffset, j);
    RecsAt(rs[..j], decode, x.startOffset);
    ShortAt(rs[..j]);
  }

  /** The distances from `s` of the entries that belong to the records from `j` on. */
  function Distances(recs: seq<Rec>, init: nat, sparse: nat, j: nat, s: nat): int {
    if |recs| <= j then 0
    else
      var front := recs[..|recs| - 1];
      Distances(front, init, sparse, j, s) + if Pass(front, init, sparse) >= sparse then Pos(front) - s else 0
  }

  lemma {:induction false} DistancesGrow(recs: seq<Rec>, init: nat, sparse: nat, j: nat, s: nat)
    requires j <= |recs| && s <= Pos(recs[..j])
    ensures 0 <= Distances(recs, init, sparse, j, s)
    decreases |recs|
  {
    if j < |recs| {
      var n := |recs| - 1;
      assert recs[..n][..j] == recs[..j];
      DistancesGrow(recs[..n], init, sparse, j, s);
      PosGrows(recs, j, n);
    }
  }

  /** Records that end at or before the offset leave the hint alone. */
  lemma {:induction false} HintBefore(recs: seq<Rec>, init: nat, sparse: nat, base: nat, relative: nat, hint: nat)
    requires forall i :: 0 <= i < |recs| ==> recs[i].end <= relative
    ensures HintIn(Index(recs, init, sparse), base, base + relative, hint) == Some(hint)
    decreases |recs|
  {
    if recs != [] {
      var n := |recs| - 1;
      HintBefore(recs[..n], init, sparse, base, relative, hint);
      var es := Index(recs[..n], init, sparse);
      assert es + [] == es;
      var e := Entry(recs[n].end, Pos(recs[..n]));
      assert (es + [e])[..|es|] == es;
    }
  }

  /** The records from `j` on add the distances of their entries, until the sum overflows. */
  lemma {:induction false} HintBehind(recs: seq<Rec>, init: nat, sparse: nat, base: nat, relative: nat, hint: nat, j: nat, s: nat)
    requires hint <= U32_MAX && j <= |recs|
    requires (forall i :: 0 <= i < j ==> recs[i].end <= relative) && forall i :: j <= i < |recs| ==> relative < recs[i].end
    requires s == StartIn(Index(recs[..j], init, sparse), base, base + relative) <= Pos(recs[..j])
    ensures var sum := hint + Distances(recs, init, sparse, j, s);
            HintIn(Index(recs, init, sparse), base, base + relative, hint) == if sum > U32_MAX then None else Some(sum)
    decreases |recs|
  {
    hide Index, HintIn, StartIn, Pass, Pos, Distances;
    if j == |recs| {
      assert recs[..j] == recs;
      HintBefore(recs, init, sparse, base, relative, hint);
      NoDistances(recs, init, sparse, s);
    } else {
      var n := |recs| - 1;
      var front := recs[..n];
      assert front[..j] == recs[..j];
      HintBehind(front, init, sparse, base, relative, hint, j, s);
      StartStays(front, init, sparse, base, relative, j);
      PosGrows(recs, j, n);
      DistancesGrow(front, init, sparse, j, s);
      assert recs == front + [recs[n]];
      HintOneMore(front, recs[n], init, sparse, base, relative, hint, j, s);
    }
  }

  lemma {:induction false} NoDistances(recs: seq<Rec>, init: nat, sparse: nat, s: nat)
    ensures Distances(recs, init, sparse, |recs|, s) == 0
  {
  }

  lemma {:induction false} HintOneMore(front: seq<Rec>, last: Rec, init: nat, sparse: nat, base: nat, relative: nat, hint: nat, j: nat, s: nat)
    requires hint <= U32_MAX && j <= |front| && relative < last.end && s <= Pos(front)
    requires StartIn(Index(front, init, sparse), base, base + relative) == s
    requires var sum := hint + Distances(front, init, sparse, j, s);
             0 <= Distances(front, init, sparse, j, s)
             && HintIn(Index(front, init, sparse), base, base + relative, hint) == if sum > U32_MAX then None else Some(sum)
    ensures var sum := hint + Distances(front + [last], init, sparse, j, s);
            HintIn(Index(front + [last], init, sparse), base, base + relative, hint) == if sum > U32_MAX then None else Some(sum)
  {
    var es := Index(front, init, sparse);
    assert Distances(front + [last], init, sparse, j, s)
        == Distances(front, init, sparse, j, s) + if Pass(front, init, sparse) >= sparse then Pos(front) - s else 0 by {
      assert (front + [last])[..|front|] == front;
    }
    hide Index, HintIn, StartIn, Pass, Pos, Distances;
    IndexSnoc(front, last, init, sparse);
    assert es + [] == es;
    HintSnoc(es, Entry(last.end, Pos(front)), base, base + relative, hint);
  }

  lemma {:induction false} HintSnoc(es: seq<Entry>, e: Entry, base: nat, offset: nat, hint: nat)
    ensures var before := HintIn(es, base, offset, hint);
            HintIn(es + [e], base, offset, hint)
            == if before.None? || base + e.end <= offset then before else HintOf(before.value, StartIn(es, base, offset), e.pos)
  {
    assert (es + [e])[..|es|] == es;
  }

  /** For an object indexed in one pass, the search aborts exactly when the size hint and the distances
      of all entries behind the start exceed 32 bits. Otherwise their sum is the size that is looked for,
      or the whole object if no entry ends at or before the offset. */
  lemma {:induction false} SeekAborts(x: ObjectIndex, recs: seq<Rec>, init: nat, sparse: nat, offset: nat, hint: u32, j: nat)
    requires IndexOf(x, recs, init, sparse)
    requires x.startOffset < offset && HeldBy(recs, offset - x.startOffset, j)
    ensures var sum := hint + Distances(recs, init, sparse, j, x.Start(offset, None));
            && (x.Hint(offset, None, hint).None? <==> sum > U32_MAX)
            && (sum <= U32_MAX ==> x.Hint(offset, None, hint).value == if x.Start(offset, None) == 0 then x.dataLen else sum)
  {
    var relative := offset - x.startOffset;
    StartStays(recs, init, sparse, x.startOffset, relative, j);
    StartBehind(recs[..j], init, sparse, x.startOffset, relative, Longest(recs[..j]));
    HintBehind(recs, init, sparse, x.startOffset, relative, hint, j, x.Start(offset, None));
  }
}
