/**
 The frame format: encoding into buffers, the completeness check on a read buffer, and parsing
 (components/codec/src/frame.rs, components/util/src/crc32.rs).
 */
module Frame {
  import opened Prelude

  const MAGIC_CODE: byte := 23
  const MIN_FRAME_LENGTH: nat := 16
  const MAX_FRAME_LENGTH: nat := 16 * 1024 * 1024

  // ---- CRC-32/ISO-HDLC ------------------------------------------------------------

  function CrcShift(c: bv32, n: nat): bv32
    decreases n
  {
    if n == 0 then c
    else CrcShift(if c & 1 == 1 then (c >> 1) ^ 0xEDB8_8320 else c >> 1, n - 1)
  }

  function Word(x: byte): bv32 { (x as bv8) as bv32 }

  function Xor(c: bv32, d: bv32): bv32 { c ^ d }

  function CrcStep(c: bv32, x: byte): bv32 { CrcShift(Xor(c, Word(x)), 8) }

  function Fold<S>(step: (S, byte) -> S, s: S, b: bytes): S
    decreases |b|
  {
    if b == [] then s else Fold(step, step(s, b[0]), b[1..])
  }

  function CrcFinish(c: bv32): (n: nat)
    ensures n <= U32_MAX
  {
    Xor(c, 0xFFFF_FFFF) as int
  }

  function Crc32(b: bytes): (n: nat)
    ensures n <= U32_MAX
  {
    CrcFinish(Fold(CrcStep, 0xFFFF_FFFF, b))
  }

  lemma {:induction false} FoldConcat<S>(step: (S, byte) -> S, s: S, a: bytes, b: bytes)
    ensures Fold(step, s, a + b) == Fold(step, Fold(step, s, a), b)
    decreases |a|
  {
    if a == [] {
      assert a + b == b;
    } else {
      assert (a + b)[1..] == a[1..] + b;
      FoldConcat(step, step(s, a[0]), a[1..], b);
    }
  }

  /** Updating a running checksum with one buffer after another folds over their bytes joined. */
  method FoldVectored<S>(step: (S, byte) -> S, init: S, parts: seq<bytes>) returns (s: S)
    ensures s == Fold(step, init, Join(parts))
  {
    s := init;
    var i := 0;
    while i < |parts|
      invariant 0 <= i <= |parts|
      invariant Fold(step, s, Join(parts[i..])) == Fold(step, init, Join(parts))
    {
      FoldConcat(step, s, parts[i], Join(parts[i + 1..]));
      assert parts[i..][1..] == parts[i + 1..];
      s := Fold(step, s, parts[i]);
      i := i + 1;
    }
  }

  /** `crc32_vectored`: the checksum of the bytes joined. */
  method Crc32Vectored(parts: seq<bytes>) returns (n: nat)
    ensures n == Crc32(Join(parts))
  {
    var c := FoldVectored(CrcStep, 0xFFFF_FFFF, parts);
    n := CrcFinish(c);
  }

  /** The checksum the repository's own test expects for "abcdef". */
  lemma {:induction false} CrcTestVector()
    ensures Crc32([0x61, 0x62, 0x63, 0x64, 0x65, 0x66]) == 1267612143
  {
    assert CrcStep(0xFFFF_FFFF, 0x61) == 0x1748_41BC;
    assert CrcStep(0x1748_41BC, 0x62) == 0x617C_B792;
    assert CrcStep(0x617C_B792, 0x63) == 0xCADB_BE3D;
    assert CrcStep(0xCADB_BE3D, 0x64) == 0x127D_32EE;
    assert CrcStep(0x127D_32EE, 0x65) == 0x7A78_279A;
    assert CrcStep(0x7A78_279A, 0x66) == 0xB471_C610;
  }

  // ---- One changed byte changes the checksum ----------------------------------------

  lemma {:induction false} ShiftInjective(c: bv32, d: bv32, n: nat)
    requires CrcShift(c, n) == CrcShift(d, n)
    ensures c == d
    decreases n
  {
    if n > 0 {
      var c', d' := if c & 1 == 1 then (c >> 1) ^ 0xEDB8_8320 else c >> 1, if d & 1 == 1 then (d >> 1) ^ 0xEDB8_8320 else d >> 1;
      ShiftInjective(c', d', n - 1);
      OneShiftInjective(c, d);
    }
  }

  lemma {:induction false} OneShiftInjective(c: bv32, d: bv32)
    requires (if c & 1 == 1 then (c >> 1) ^ 0xEDB8_8320 else c >> 1) == (if d & 1 == 1 then (d >> 1) ^ 0xEDB8_8320 else d >> 1)
    ensures c == d
  {
  }

  lemma {:induction false} StepInjective(c: bv32, d: bv32, x: byte, y: byte)
    requires CrcStep(c, x) == CrcStep(d, y) && (c == d || x == y)
    ensures c == d && x == y
  {
    hide CrcShift, Word, Xor;
    ShiftInjective(Xor(c, Word(x)), Xor(d, Word(y)), 8);
    XorCancels(c, Word(x));
    XorCancels(d, Word(y));
    if c == d {
      WordInjective(x, y);
    }
  }

  lemma {:induction false} XorCancels(c: bv32, u: bv32)
    ensures Xor(Xor(c, u), u) == c && Xor(Xor(c, u), c) == u
  {
  }

  lemma {:induction false} WordInjective(x: byte, y: byte)
    requires Word(x) == Word(y)
    ensures x == y
  {
    ByteBack(x);
    ByteBack(y);
    WidenInjective(x as bv8, y as bv8);
  }

  lemma {:induction false} ByteBack(x: int)
    requires 0 <= x < 256
    ensures (x as bv8) as int == x
  {
    if x < 16 {
    } else if x < 32 {
    } else if x < 64 {
    } else if x < 128 {
    }
  }

  lemma {:induction false} WidenInjective(x: bv8, y: bv8)
    requires x as bv32 == y as bv32
    ensures x == y
  {
  }

  lemma {:induction false} WordBack(c: bv32)
    ensures (c as int) as bv32 == c
  {
  }

  lemma {:induction false} FoldInjective(c: bv32, d: bv32, b: bytes)
    requires Fold(CrcStep, c, b) == Fold(CrcStep, d, b)
    ensures c == d
    decreases |b|
  {
    hide CrcStep;
    if b != [] {
      FoldInjective(CrcStep(c, b[0]), CrcStep(d, b[0]), b[1..]);
      StepInjective(c, d, b[0], b[0]);
    }
  }

  /** Two byte strings that differ in exactly one byte have different checksums. */
  lemma {:induction false} OneByteDetected(before: bytes, x: byte, y: byte, after: bytes)
    requires x != y
    ensures Crc32(before + [x] + after) != Crc32(before + [y] + after)
  {
    hide CrcStep;
    var c := Fold(CrcStep, 0xFFFF_FFFF, before);
    FoldThrough(before, x, after);
    FoldThrough(before, y, after);
    if Crc32(before + [x] + after) == Crc32(before + [y] + after) {
      FinishInjective(Fold(CrcStep, CrcStep(c, x), after), Fold(CrcStep, CrcStep(c, y), after));
      FoldInjective(CrcStep(c, x), CrcStep(c, y), after);
      StepInjective(c, c, x, y);
    }
  }

  lemma {:induction false} FoldThrough(before: bytes, x: byte, after: bytes)
    ensures Fold(CrcStep, 0xFFFF_FFFF, before + [x] + after)
         == Fold(CrcStep, CrcStep(Fold(CrcStep, 0xFFFF_FFFF, before), x), after)
  {
    hide CrcStep;
    FoldConcat(CrcStep, 0xFFFF_FFFF, before + [x], after);
    FoldConcat(CrcStep, 0xFFFF_FFFF, before, [x]);
    assert [x][1..] == [];
  }

  lemma {:induction false} FinishInjective(c: bv32, d: bv32)
    requires CrcFinish(c) == CrcFinish(d)
    ensures c == d
  {
    hide Xor;
    WordBack(Xor(c, 0xFFFF_FFFF));
    WordBack(Xor(d, 0xFFFF_FFFF));
    XorCancels(c, 0xFFFF_FFFF);
    XorCancels(d, 0xFFFF_FFFF);
  }

  // ---- Frames ---------------------------------------------------------------------

  datatype HeaderFormat = Unknown | FlatBuffer | ProtoBuffer | JSON {
    function ToByte(): byte {
      match this
      case Unknown => 0
      case FlatBuffer => 1
      case ProtoBuffer => 2
      case JSON => 3
    }
  }

  function FormatOf(b: byte): HeaderFormat {
    if b == 1 then FlatBuffer else if b == 2 then ProtoBuffer else if b == 3 then JSON else Unknown
  }

  /** The operation code is kept as its 16-bit pattern. */
  datatype Frame = Frame(opcode: nat, flag: byte, streamId: nat, headerFormat: HeaderFormat,
                         header: Option<bytes>, payload: Option<seq<bytes>>)
  {
    predicate InRange() { opcode <= U16_MAX && streamId <= U32_MAX }

    function Header(): bytes { header.GetOr([]) }

    function Payload(): bytes { Join(payload.GetOr([])) }

    function Length(): nat { MIN_FRAME_LENGTH + |Header()| + |Payload()| }

    predicate Encodable() { InRange() && Length() <= MAX_FRAME_LENGTH }

    /** What a reader makes of the frame: parts joined, an empty header or payload absent. */
    function Received(): Frame {
      this.(header := if Header() == [] then None else Some(Header()),
            payload := if Payload() == [] then None else Some([Payload()]))
    }

    /** The 16 bytes before the header. */
    function Fixed(): (b: bytes)
      requires Encodable()
      ensures |b| == 16
    {
      PutU32(Length()) + [MAGIC_CODE] + PutU16(opcode) + [flag] + PutU32(streamId)
      + [headerFormat.ToByte()] + PutU24(|Header()|)
    }

    function Checksum(): (b: bytes)
      ensures |b| == 4
    {
      if payload.Some? then PutU32(Crc32(Payload())) else [0, 0, 0, 0]
    }

    /** The bytes on the wire. */
    function Wire(): (b: bytes)
      requires Encodable()
      ensures |b| == 4 + Length()
    {
      Fixed() + Header() + Payload() + Checksum()
    }
  }

  datatype FrameError =
    | Incomplete
    | BadFrame
    | TooLongFrame
    | MagicCodeMismatch
    | PayloadChecksumMismatch
    | ConnectionReset

  /** `Frame::encode`: the buffers handed to a vectored write. */
  method Encode(f: Frame) returns (r: Result<seq<bytes>, FrameError>)
    requires f.InRange()
    ensures r == Err(TooLongFrame) <==> !f.Encodable()
    ensures f.Encodable() ==> r.Ok? && Join(r.value) == f.Wire()
    ensures f.Encodable() && f.payload.None? ==> Join(r.value)[f.Length()..] == [0, 0, 0, 0]
  {
    var frameLength := 16;
    if f.header.Some? {
      frameLength := frameLength + |f.header.value|;
    }
    var parts := f.payload.GetOr([]);
    var payloadLen := 0;
    for i := 0 to |parts|
      invariant payloadLen + |Join(parts[i..])| == |Join(parts)|
    {
      assert parts[i..][1..] == parts[i + 1..];
      payloadLen := payloadLen + |parts[i]|;
    }
    frameLength := frameLength + payloadLen;
    if frameLength > MAX_FRAME_LENGTH {
      return Err(TooLongFrame);
    }
    var basic := PutU32(frameLength) + [MAGIC_CODE] + PutU16(f.opcode) + [f.flag] + PutU32(f.streamId)
    + [f.headerFormat.ToByte()];
    if f.header.Some? {
      basic := basic + PutU24(|f.header.value|) + f.header.value;
    } else {
      basic := basic + [0] + PutU16(0);
    }
    assert basic == f.Fixed() + f.Header();
    var checksum: bytes := [0, 0, 0, 0];
    if f.payload.Some? {
      var crc := Crc32Vectored(parts);
      checksum := PutU32(crc);
    }
    JoinFramed(basic, parts, checksum);
    return Ok([basic] + parts + [checksum]);
  }

  lemma {:induction false} JoinFramed(a: bytes, parts: seq<bytes>, z: bytes)
    ensures Join([a] + parts + [z]) == a + Join(parts) + z
  {
    JoinConcat([a] + parts, [z]);
    JoinConcat([a], parts);
    assert Join([z]) == z && Join([a]) == a;
  }

  // ---- Reading --------------------------------------------------------------------

  /** `Frame::check`: the length of the first frame, or why there is none yet. */
  function Check(b: bytes): (r: Result<nat, FrameError>)
    ensures r.Ok? ==> 20 <= r.value <= |b| && r.value == 4 + GetU32(b)
  {
    if |b| < 4 then Err(Incomplete)
    else
      var len := GetU32(b);
      if len < MIN_FRAME_LENGTH then Err(BadFrame)
      else if len > MAX_FRAME_LENGTH then Err(TooLongFrame)
      else if |b| - 4 < len then Err(Incomplete)
      else if b[4] != MAGIC_CODE then Err(MagicCodeMismatch)
      else
        var h := GetU24(b[13..]);
        if h > len - MIN_FRAME_LENGTH then Err(BadFrame)
        else if h + MIN_FRAME_LENGTH < len && GetU32(b[len..]) != Crc32(b[16 + h..len]) then Err(PayloadChecksumMismatch)
        else Ok(4 + len)
  }

  /** The payload is compared with the count of bytes left, cast to 32 bits; with more than 4 GiB left
      the cast loses the high bits. */
  predicate LooksShort(b: bytes) {
    && (Check(b).Ok? || Check(b) == Err(PayloadChecksumMismatch))
    && var len, h := GetU32(b), GetU24(b[13..]);
       0 < len - 16 - h && AsU32(|b| - 16 - h) < len - 16 - h
  }

  /** `Frame::check` with its cursor: the verdict of `Check`, except for a buffer that looks too short
      once its length is cast. */
  method CheckCursor(src: bytes) returns (r: Result<nat, FrameError>)
    ensures r == if LooksShort(src) then Err(BadFrame) else Check(src)
  {
    hide Crc32;
    var pos: nat := 0;
    if |src| < 4 {
      return Err(Incomplete);
    }
    var frameLength := GetU32(src);
    pos := pos + 4;
    if frameLength < MIN_FRAME_LENGTH {
      return Err(BadFrame);
    }
    if frameLength > MAX_FRAME_LENGTH {
      return Err(TooLongFrame);
    }
    if |src| - pos < frameLength {
      return Err(Incomplete);
    }
    var magicCode := src[pos];
    pos := pos + 1;
    if magicCode != MAGIC_CODE {
      return Err(MagicCodeMismatch);
    }
    pos := pos + 2;  // operation code
    pos := pos + 1;  // flag
    pos := pos + 4;  // stream id
    pos := pos + 1;  // header format
    var headerLength := GetU24(src[pos..]);
    pos := pos + 3;
    if headerLength > frameLength - MIN_FRAME_LENGTH {
      return Err(BadFrame);
    }
    pos := pos + headerLength;
    var payload := None;
    if headerLength + MIN_FRAME_LENGTH < frameLength {
      var payloadLength := frameLength - headerLength - MIN_FRAME_LENGTH;
      if payloadLength > AsU32(|src| - pos) {
        return Err(BadFrame);
      }
      payload := Some(src[pos..pos + payloadLength]);
      pos := pos + payloadLength;
    }
    assert |src| - pos >= 4;
    if payload.Some? {
      var checksum := GetU32(src[pos..]);
      pos := pos + 4;
      if checksum != Crc32(payload.value) {
        return Err(PayloadChecksumMismatch);
      }
    } else {
      pos := pos + 4;
    }
    return Ok(pos);
  }

  /** The frame at the start of a buffer that passed the check. */
  function Parse(b: bytes): (f: Frame)
    requires Check(b).Ok?
    ensures f.Encodable() && f.Received() == f && 4 + f.Length() == Check(b).value
  {
    var len := GetU32(b);
    var h := GetU24(b[13..]);
    var f := Frame(GetU16(b[5..]), b[7], GetU32(b[8..]), FormatOf(b[12]),
                   if h > 0 then Some(b[16..16 + h]) else None,
                   if 16 + h < len then Some([b[16 + h..len]]) else None);
    assert 16 + h < len ==> Join([b[16 + h..len]]) == b[16 + h..len];
    f
  }

  /** `Frame::parse` with its cursor and its count of bytes left, neither of which underflows. */
  method ParseCursor(src: bytes) returns (f: Frame, pos: nat)
    requires Check(src).Ok?
    ensures f == Parse(src) && pos == Check(src).value
  {
    pos := 0;
    var frameLength := GetU32(src);
    pos := pos + 4;
    var remaining: nat := frameLength;
    pos := pos + 1;
    remaining := remaining - 1;
    var opcode := GetU16(src[pos..]);
    pos := pos + 2;
    remaining := remaining - 2;
    var flag := src[pos];
    pos := pos + 1;
    remaining := remaining - 1;
    var streamId := GetU32(src[pos..]);
    pos := pos + 4;
    remaining := remaining - 4;
    var headerFormat := FormatOf(src[pos]);
    pos := pos + 1;
    remaining := remaining - 1;
    f := Frame(opcode, flag, streamId, headerFormat, None, None);
    var headerLength := GetU24(src[pos..]);
    pos := pos + 3;
    remaining := remaining - 3;
    if headerLength > 0 {
      f := f.(header := Some(src[pos..pos + headerLength]));
      pos := pos + headerLength;
    }
    remaining := remaining - headerLength;
    var payloadLength := remaining - 4;
    if payloadLength > 0 {
      f := f.(payload := Some([src[pos..pos + payloadLength]]));
      pos := pos + payloadLength;
    }
    remaining := remaining - payloadLength;
    pos := pos + 4;
    remaining := remaining - 4;
    assert remaining == 0;
  }

  // ---- Round trips ----------------------------------------------------------------

  lemma {:induction false} FixedFields(f: Frame, rest: bytes)
    requires f.Encodable()
    ensures var b := f.Fixed() + rest;
            && GetU32(b) == f.Length() && b[4] == MAGIC_CODE && GetU16(b[5..]) == f.opcode && b[7] == f.flag
            && GetU32(b[8..]) == f.streamId && b[12] == f.headerFormat.ToByte() && GetU24(b[13..]) == |f.Header()|
            && b[16..] == rest
  {
    var b := f.Fixed() + rest;
    U32RoundTrip(f.Length(), b[4..]);
    assert b == PutU32(f.Length()) + b[4..];
    U16RoundTrip(f.opcode, b[7..]);
    assert b[5..] == PutU16(f.opcode) + b[7..];
    U32RoundTrip(f.streamId, b[12..]);
    assert b[8..] == PutU32(f.streamId) + b[12..];
    U24RoundTrip(|f.Header()|, b[16..]);
    assert b[13..] == PutU24(|f.Header()|) + b[16..];
  }

  lemma {:induction false} WireFields(f: Frame, rest: bytes)
    requires f.Encodable()
    ensures var b, h, len := f.Wire() + rest, |f.Header()|, f.Length();
            && GetU32(b) == len && b[4] == MAGIC_CODE && GetU16(b[5..]) == f.opcode && b[7] == f.flag
            && GetU32(b[8..]) == f.streamId && FormatOf(b[12]) == f.headerFormat && GetU24(b[13..]) == h
            && b[16..16 + h] == f.Header() && b[16 + h..len] == f.Payload()
            && (f.payload.Some? ==> GetU32(b[len..]) == Crc32(f.Payload()))
  {
    hide Frame.Fixed, GetU32, GetU16, GetU24, PutU32, Crc32;
    var b := f.Wire() + rest;
    var tail := f.Header() + f.Payload() + f.Checksum() + rest;
    assert b == f.Fixed() + tail;
    FixedFields(f, tail);
    assert b[f.Length()..] == f.Checksum() + rest;
    if f.payload.Some? {
      U32RoundTrip(Crc32(f.Payload()), rest);
    }
  }

  /** A frame followed by anything is recognised with its exact length and parsed as the reader's
      view of it. */
  lemma {:induction false} WireRoundTrip(f: Frame, rest: bytes)
    requires f.Encodable()
    ensures Check(f.Wire() + rest) == Ok(|f.Wire()|)
    ensures Parse(f.Wire() + rest) == f.Received()
  {
    WireFields(f, rest);
  }

  /** A proper prefix of a frame is never an error, only incomplete. */
  lemma {:induction false} PrefixIncomplete(f: Frame, n: nat)
    requires f.Encodable() && n < |f.Wire()|
    ensures Check(f.Wire()[..n]) == Err(Incomplete)
  {
    if n >= 4 {
      var b := f.Wire()[..n];
      FixedFields(f, f.Header() + f.Payload() + f.Checksum());
      assert f.Wire() == f.Fixed() + (f.Header() + f.Payload() + f.Checksum());
      assert b[..4] == f.Wire()[..4];
    }
  }

  /** Any bytes that pass the check parse to a frame that can be encoded again, and parsing that
      encoding gives the same frame and the same length. */
  lemma {:induction false} CheckGuardsParse(b: bytes)
    requires Check(b).Ok?
    ensures var f := Parse(b);
            f.Encodable() && Check(f.Wire()) == Check(b) && Parse(f.Wire()) == f
  {
    var f := Parse(b);
    WireRoundTrip(f, []);
    assert f.Wire() + [] == f.Wire();
  }

  // ---- What is accepted, and what is refused ------------------------------------------

  /** The buffer starts with the wire form of `f`. The byte of the header format is free within what
      reads as that format, and without a payload so are the checksum bytes. */
  ghost predicate StartsWith(b: bytes, f: Frame)
    requires f.Encodable()
  {
    var n := f.Length();
    && n + 4 <= |b|
    && b[..12] == f.Wire()[..12] && FormatOf(b[12]) == f.headerFormat && b[13..n] == f.Wire()[13..n]
    && (f.payload.Some? ==> b[n..n + 4] == f.Checksum())
  }

  lemma {:induction false} ParsedStarts(b: bytes)
    requires Check(b).Ok?
    ensures StartsWith(b, Parse(b))
  {
    hide Crc32, GetU32, GetU24, GetU16, PutU32, PutU24, PutU16, Frame.Fixed, Join;
    var f := Parse(b);
    var n, h := f.Length(), |f.Header()|;
    ParsedParts(b, f);
    ParsedFixed(b, f);
    WireFrom13(f);
    Cut(b, n, h);
    if f.payload.Some? {
      U32Back(b[n..]);
      assert b[n..][..4] == b[n..n + 4];
    }
  }

  lemma {:induction false} ParsedParts(b: bytes, f: Frame)
    requires Check(b).Ok? && f == Parse(b)
    ensures var n, h := f.Length(), |f.Header()|;
            && GetU24(b[13..]) == h && GetU32(b) == n && f.Header() == b[16..16 + h] && f.Payload() == b[16 + h..n]
  {
    hide Crc32, GetU32, GetU24, GetU16;
  }

  lemma {:induction false} ParsedFixed(b: bytes, f: Frame)
    requires Check(b).Ok? && f == Parse(b)
    ensures f.Fixed()[..12] == b[..12] && f.Fixed()[13..] == b[13..16]
  {
    hide Crc32, GetU32, GetU24, GetU16, PutU32, PutU24, PutU16;
    ParsedParts(b, f);
    U32Back(b);
    U16Back(b[5..]);
    U32Back(b[8..]);
    U24Back(b[13..]);
    FixedParts(f);
  }

  lemma {:induction false} WireFrom13(f: Frame)
    requires f.Encodable()
    ensures f.Wire()[..12] == f.Fixed()[..12]
    ensures f.Wire()[13..f.Length()] == f.Fixed()[13..] + f.Header() + f.Payload()
  {
    hide Frame.Fixed, Join, Crc32;
  }

  lemma {:induction false} Cut(b: bytes, n: nat, h: nat)
    requires 16 + h <= n <= |b|
    ensures b[13..n] == b[13..16] + b[16..16 + h] + b[16 + h..n]
  {
  }

  lemma {:induction false} FixedParts(f: Frame)
    requires f.Encodable()
    ensures f.Fixed()[..12] == PutU32(f.Length()) + [MAGIC_CODE] + PutU16(f.opcode) + [f.flag] + PutU32(f.streamId)
    ensures f.Fixed()[13..] == PutU24(|f.Header()|)
  {
    hide PutU32, PutU24, PutU16;
  }

  /** A buffer that starts with the wire form of a frame is accepted like that form itself. */
  lemma {:induction false} StartParses(b: bytes, f: Frame)
    requires f.Encodable() && f.Received() == f && StartsWith(b, f)
    ensures Check(b) == Ok(|f.Wire()|) && Parse(b) == f
  {
    hide Crc32, Frame.Fixed, GetU32, GetU24, GetU16, PutU32;
    var n, h, w := f.Length(), |f.Header()|, f.Wire();
    WireFields(f, []);
    assert w + [] == w;
    SameFields(b, w, n, h);
    assert f.payload.Some? <==> f.Payload() != [];
    if f.payload.Some? {
      U32RoundTrip(Crc32(f.Payload()), b[n + 4..]);
      assert b[n..] == f.Checksum() + b[n + 4..];
    }
  }

  lemma {:induction false} SameFields(b: bytes, w: bytes, n: nat, h: nat)
    requires 16 <= 16 + h <= n <= |b| && n <= |w| && b[..12] == w[..12] && b[13..n] == w[13..n]
    ensures GetU32(b) == GetU32(w) && b[4] == w[4] && GetU16(b[5..]) == GetU16(w[5..]) && b[7] == w[7]
    ensures GetU32(b[8..]) == GetU32(w[8..]) && GetU24(b[13..]) == GetU24(w[13..])
    ensures b[16..16 + h] == w[16..16 + h] && b[16 + h..n] == w[16 + h..n]
  {
    forall i | 0 <= i < n && i != 12
      ensures b[i] == w[i]
    {
      if i < 12 {
        assert b[i] == b[..12][i] && w[i] == w[..12][i];
      } else {
        assert b[i] == b[13..n][i - 13] && w[i] == w[13..n][i - 13];
      }
    }
  }

  /** A buffer is accepted and read as `f` if and only if it starts with the wire form of `f`. */
  lemma {:induction false} AcceptsExactly(b: bytes, f: Frame)
    requires f.Encodable() && f.Received() == f
    ensures Check(b).Ok? && Parse(b) == f <==> StartsWith(b, f)
    ensures StartsWith(b, f) ==> Check(b) == Ok(|f.Wire()|)
  {
    hide Check, StartsWith;
    if Check(b).Ok? && Parse(b) == f {
      ParsedStarts(b);
    }
    if StartsWith(b, f) {
      StartParses(b, f);
    }
  }

  /** With any payload and checksum bytes in place of those of a frame, the frame is accepted exactly if
      the one is the checksum of the other, and refused as a mismatch otherwise. */
  lemma {:induction false} ChecksumDecides(f: Frame, payload: bytes, checksum: bytes, rest: bytes)
    requires f.Encodable() && |payload| == |f.Payload()| > 0 && |checksum| == 4
    ensures Check(f.Fixed() + f.Header() + payload + checksum + rest)
         == if checksum == PutU32(Crc32(payload)) then Ok(4 + f.Length()) else Err(PayloadChecksumMismatch)
  {
    hide Crc32, Frame.Fixed, GetU32, GetU24, GetU16, PutU32, PutU24, PutU16;
    var b := f.Fixed() + f.Header() + payload + checksum + rest;
    var tail := f.Header() + payload + checksum + rest;
    assert b == f.Fixed() + tail;
    FixedFields(f, tail);
    var n, h := f.Length(), |f.Header()|;
    assert b[16 + h..n] == payload && b[n..] == checksum + rest;
    U32Back(b[n..]);
    assert b[n..][..4] == checksum;
    if checksum == PutU32(Crc32(payload)) {
      U32RoundTrip(Crc32(payload), rest);
    }
  }

  /** A frame with one byte of its payload changed on the way is refused. */
  lemma {:induction false} DamagedPayload(f: Frame, before: bytes, x: byte, y: byte, after: bytes, rest: bytes)
    requires f.Encodable() && f.payload.Some? && f.Payload() == before + [x] + after && x != y
    ensures Check(f.Fixed() + f.Header() + (before + [y] + after) + f.Checksum() + rest) == Err(PayloadChecksumMismatch)
  {
    hide Crc32, Check, Frame.Fixed, PutU32;
    var damaged := before + [y] + after;
    OneByteDetected(before, x, y, after);
    ChecksumDecides(f, damaged, f.Checksum(), rest);
    U32RoundTrip(Crc32(f.Payload()), []);
    U32RoundTrip(Crc32(damaged), []);
  }

  /** So is a frame with another magic byte, or with a header length that exceeds the frame. */
  lemma {:induction false} DamagedFixed(f: Frame, rest: bytes, magic: byte, h: nat)
    requires f.Encodable() && h < 0x100_0000
    ensures magic != MAGIC_CODE ==> Check((f.Wire() + rest)[4 := magic]) == Err(MagicCodeMismatch)
    ensures f.Length() < MIN_FRAME_LENGTH + h ==> Check(f.Wire()[..13] + PutU24(h) + f.Wire()[16..] + rest) == Err(BadFrame)
  {
    hide Crc32, Frame.Fixed, PutU24;
    WireFields(f, rest);
    var w := f.Wire() + rest;
    var b := w[4 := magic];
    assert GetU32(b) == GetU32(w);
    var c := f.Wire()[..13] + PutU24(h) + f.Wire()[16..] + rest;
    assert c[..13] == w[..13];
    assert GetU32(c) == GetU32(w) && c[4] == w[4];
    assert c[13..] == PutU24(h) + (f.Wire()[16..] + rest);
    U24RoundTrip(h, f.Wire()[16..] + rest);
  }

  /** The length alone decides about a buffer that is shorter than it says, and about lengths that no
      frame has. */
  lemma {:induction false} LengthDecides(n: nat, rest: bytes)
    requires n <= U32_MAX
    ensures n < MIN_FRAME_LENGTH ==> Check(PutU32(n) + rest) == Err(BadFrame)
    ensures n > MAX_FRAME_LENGTH ==> Check(PutU32(n) + rest) == Err(TooLongFrame)
    ensures MIN_FRAME_LENGTH <= n <= MAX_FRAME_LENGTH ==> (Check(PutU32(n) + rest) == Err(Incomplete) <==> |rest| < n)
  {
    hide Crc32;
    U32RoundTrip(n, rest);
  }

  /** A buffer below 4 GiB never looks short. */
  lemma {:induction false} SmallIsExact(b: bytes)
    requires |b| <= U32_MAX
    ensures !LooksShort(b)
  {
    hide Crc32;
  }

  /** Once the verdict is not "incomplete", more bytes do not change it. */
  lemma {:induction false} CheckStable(b: bytes, rest: bytes)
    requires Check(b) != Err(Incomplete)
    ensures Check(b + rest) == Check(b)
    ensures Check(b).Ok? ==> Parse(b + rest) == Parse(b)
  {
    hide Crc32;
    var c := b + rest;
    assert c[..|b|] == b;
    var len := GetU32(b);
    assert GetU32(c) == len;
    if MIN_FRAME_LENGTH <= len <= MAX_FRAME_LENGTH && b[4] == MAGIC_CODE {
      var h := GetU24(b[13..]);
      assert GetU24(c[13..]) == h;
      if h <= len - MIN_FRAME_LENGTH {
        assert c[16 + h..len] == b[16 + h..len];
        assert c[16..16 + h] == b[16..16 + h];
        assert GetU32(c[len..]) == GetU32(b[len..]);
      }
    }
  }

  /** `get_response_payload`: the payload bytes, in one buffer. */
  method GetResponsePayload(f: Frame) returns (r: Option<bytes>)
    ensures r.Some? <==> f.payload.Some?
    ensures r.Some? ==> r.value == f.Payload()
  {
    if f.payload.None? {
      return None;
    }
    var parts := f.payload.value;
    if |parts| == 1 {
      assert Join(parts) == parts[0];
      return Some(parts[0]);
    }
    var all: bytes := [];
    for i := 0 to |parts|
      invariant all + Join(parts[i..]) == Join(parts)
    {
      assert parts[i..][1..] == parts[i + 1..];
      all := all + parts[i];
    }
    return Some(all);
  }
}
