/**
 A connection: frames written with partial vectored writes on one side, and read back from
 chunks of any size on the other (components/transport/src/connection.rs).
 */
module Transport {
  import opened Prelude
  import opened Frame

  // ---- Writing --------------------------------------------------------------------

  datatype WriteError = EncodeFrame | Network

  /** The sending end of a socket: it takes some of the bytes offered, until it has taken `takes` of
      them in all, if ever; then it fails. */
  class Socket {
    const takes: Option<nat>
    var sent: bytes

    constructor (takes: Option<nat>)
      ensures this.takes == takes && sent == [] && Valid()
    {
      this.takes := takes;
      sent := [];
    }

    /** The socket does not fail before it has taken `n` bytes. */
    predicate Room(n: nat) { takes.Some? ==> n <= takes.value }

    ghost predicate Valid()
      reads this
    {
      Room(|sent|)
    }

    /** The part of `goal` the socket takes. */
    ghost function Cut(goal: bytes): bytes { if Room(|goal|) then goal else goal[..takes.value] }

    method Writev(buffers: seq<bytes>) returns (r: Result<nat, WriteError>)
      requires Valid() && Join(buffers) != []
      modifies this
      ensures Valid()
      ensures r.Err? ==> sent == old(sent) && !Room(|sent| + 1)
      ensures r.Ok? ==> 0 < r.value <= |Join(buffers)| && sent == old(sent) + Join(buffers)[..r.value]
    {
      if !Room(|sent| + 1) {
        return Err(Network);
      }
      var n: nat :| 0 < n <= |Join(buffers)| && Room(|sent| + n);
      sent := sent + Join(buffers)[..n];
      return Ok(n);
    }
  }

  /** Drop the buffers that were written, and the written part of the next one. */
  method Drain(buffers: seq<bytes>, written: nat) returns (rest: seq<bytes>)
    requires written <= |Join(buffers)|
    ensures Join(rest) == Join(buffers)[written..]
  {
    var n: nat := written;
    rest := [];
    for i := 0 to |buffers|
      invariant n <= |Join(buffers[i..])|
      invariant n > 0 ==> rest == []
      invariant Join(rest) + Join(buffers[i..])[n..] == Join(buffers)[written..]
    {
      assert buffers[i..][1..] == buffers[i + 1..];
      var buffer := buffers[i];
      ghost var tail := Join(buffers[i + 1..]);
      assert Join(buffers[i..]) == buffer + tail;
      if |buffer| <= n {
        assert (buffer + tail)[n..] == tail[n - |buffer|..];
        n := n - |buffer|;
      } else {
        assert (buffer + tail)[n..] == buffer[n..] + tail;
        if n > 0 {
          buffer := buffer[n..];
        }
        JoinConcat(rest, [buffer]);
        assert Join([buffer]) == buffer;
        rest := rest + [buffer];
        n := 0;
      }
    }
    assert buffers[|buffers|..] == [];
  }

  /** The loop of `Connection::write`: as many partial writes as the socket needs. */
  method WriteBuffers(socket: Socket, encoded: seq<bytes>) returns (r: Result<(), WriteError>)
    requires socket.Valid() && Join(encoded) != []
    modifies socket
    ensures var goal := old(socket.sent) + Join(encoded);
            && socket.Valid() && socket.sent == socket.Cut(goal)
            && r == if socket.Room(|goal|) then Ok(()) else Err(Network)
  {
    var buffers := encoded;
    var remaining := |Join(buffers)|;
    while true
      invariant socket.Valid() && 0 < remaining == |Join(buffers)|
      invariant socket.sent + Join(buffers) == old(socket.sent) + Join(encoded)
      decreases remaining
    {
      ghost var before, offered := socket.sent, Join(buffers);
      var res := socket.Writev(buffers);
      if res.Err? {
        return Err(Network);
      }
      var n := res.value;
      assert (before + offered[..n]) + offered[n..] == before + offered;
      if n == remaining {
        return Ok(());
      }
      remaining := remaining - n;
      buffers := Drain(buffers, n);
    }
  }

  /** What a frame puts on the wire; a frame that is too long puts nothing there. */
  function WireOf(f: Frame): bytes { if f.Encodable() then f.Wire() else [] }

  /** `Connection::write`. */
  method Write(socket: Socket, f: Frame) returns (r: Result<(), WriteError>)
    requires f.InRange() && socket.Valid()
    modifies socket
    ensures var goal := old(socket.sent) + WireOf(f);
            && socket.Valid() && socket.sent == socket.Cut(goal)
            && (r == Err(EncodeFrame) <==> !f.Encodable())
            && (r == Err(Network) <==> !socket.Room(|goal|))
  {
    var encoded := Encode(f);
    if encoded.Err? {
      return Err(EncodeFrame);
    }
    r := WriteBuffers(socket, encoded.value);
  }

  predicate AllEncodable(fs: seq<Frame>) {
    forall i :: 0 <= i < |fs| ==> fs[i].Encodable()
  }

  function Wires(fs: seq<Frame>): (ws: seq<bytes>)
    requires AllEncodable(fs)
  {
    seq(|fs|, i requires 0 <= i < |fs| => fs[i].Wire())
  }

  /** The encodable ones of the frames, in order. */
  function EncodableOf(fs: seq<Frame>): (es: seq<Frame>)
    ensures AllEncodable(es)
  {
    if fs == [] then [] else (if fs[0].Encodable() then [fs[0]] else []) + EncodableOf(fs[1..])
  }

  lemma {:induction false} EncodableExactly(fs: seq<Frame>)
    ensures forall f :: f in EncodableOf(fs) <==> f in fs && f.Encodable()
    ensures AllEncodable(fs) ==> EncodableOf(fs) == fs
  {
    hide Frame.Encodable;
    if fs != [] {
      EncodableExactly(fs[1..]);
      assert fs == [fs[0]] + fs[1..];
    }
  }

  /** The bytes a list of tasks puts on the wire. */
  function Stream(tasks: seq<Frame>): bytes { Join(Wires(EncodableOf(tasks))) }

  lemma {:induction false} StreamCons(tasks: seq<Frame>)
    requires tasks != []
    ensures Stream(tasks) == WireOf(tasks[0]) + Stream(tasks[1..])
  {
    var rest := EncodableOf(tasks[1..]);
    if tasks[0].Encodable() {
      var ws := Wires(EncodableOf(tasks));
      assert ws[0] == tasks[0].Wire();
      assert ws[1..] == Wires(rest);
    } else {
      assert EncodableOf(tasks) == rest;
    }
  }

  /** The write loop: a frame that is too long is reported and skipped; a network error ends it. All
      bytes of the encodable frames are sent, or exactly those the socket takes. */
  method WriteLoop(socket: Socket, tasks: seq<Frame>) returns (open: bool)
    requires socket.Valid() && forall i :: 0 <= i < |tasks| ==> tasks[i].InRange()
    modifies socket
    ensures var goal := old(socket.sent) + Stream(tasks);
            && socket.Valid() && socket.sent == socket.Cut(goal)
            && (open <==> socket.Room(|goal|))
  {
    ghost var goal := socket.sent + Stream(tasks);
    var i := 0;
    while i < |tasks|
      invariant 0 <= i <= |tasks| && socket.Valid()
      invariant socket.sent + Stream(tasks[i..]) == goal
    {
      assert tasks[i..][1..] == tasks[i + 1..];
      StreamCons(tasks[i..]);
      ghost var before, wire, rest := socket.sent, WireOf(tasks[i]), Stream(tasks[i + 1..]);
      ConcatAssoc(before, wire, rest);
      var res := Write(socket, tasks[i]);
      if res == Err(Network) {
        assert goal[..socket.takes.value] == (before + wire)[..socket.takes.value];
        return false;
      }
      i := i + 1;
    }
    assert tasks[i..] == [];
    assert Stream([]) == [];
    return true;
  }

  // ---- Reading --------------------------------------------------------------------

  datatype ReadResult = Got(frame: Frame) | Closed | Failed(error: FrameError)

  /** `read_frame` on a buffer and the chunks the socket will deliver; no chunk, or an empty one,
      is the end of the stream. Returns also the buffer and the chunks left. */
  function NextFrame(buf: bytes, chunks: seq<bytes>): (ReadResult, bytes, seq<bytes>)
    decreases |chunks|
  {
    match Check(buf)
    case Ok(len) => (Got(Parse(buf)), buf[len..], chunks)
    case Err(Incomplete) =>
      if chunks != [] && chunks[0] != [] then NextFrame(buf + chunks[0], chunks[1..])
      else ((if buf == [] then Closed else Failed(ConnectionReset)), buf, chunks)
    case Err(e) => (Failed(e), buf, chunks)
  }

  /** One read from a socket returns less than 2 GiB. */
  predicate Readable(chunks: seq<bytes>) {
    forall i :: 0 <= i < |chunks| ==> |chunks[i]| < I32_LIMIT
  }

  class Connection {
    var buffer: bytes
    var incoming: seq<bytes>

    /** The buffer holds at most an incomplete frame and one read. */
    ghost predicate Valid()
      reads this
    {
      Readable(incoming) && |buffer| <= U32_MAX
    }

    constructor (chunks: seq<bytes>)
      requires Readable(chunks)
      ensures Valid() && buffer == [] && incoming == chunks
    {
      buffer, incoming := [], chunks;
    }

    method ReadFrame() returns (r: ReadResult)
      requires Valid()
      modifies this
      ensures Valid() && (r, buffer, incoming) == NextFrame(old(buffer), old(incoming))
    {
      while true
        invariant Valid() && NextFrame(buffer, incoming) == NextFrame(old(buffer), old(incoming))
        decreases |incoming|
      {
        SmallIsExact(buffer);
        var checked := CheckCursor(buffer);
        match checked {
          case Ok(len) =>
            var f, _ := ParseCursor(buffer);
            buffer := buffer[len..];
            return Got(f);
          case Err(Incomplete) =>
            var chunk: bytes := if incoming == [] then [] else incoming[0];
            if chunk == [] {
              return if buffer == [] then Closed else Failed(ConnectionReset);
            }
            buffer := buffer + chunk;
            incoming := incoming[1..];
          case Err(e) =>
            return Failed(e);
        }
      }
    }
  }

  lemma {:induction false} ReadConsumes(buf: bytes, chunks: seq<bytes>)
    ensures var (r, buf', chunks') := NextFrame(buf, chunks);
            r.Got? ==> |buf'| + |Join(chunks')| < |buf| + |Join(chunks)|
    decreases |chunks|
  {
    if Check(buf) == Err(Incomplete) && chunks != [] && chunks[0] != [] {
      ReadConsumes(buf + chunks[0], chunks[1..]);
    }
  }

  /** Reading until the connection closes or fails: the frames, and how it ended. */
  function ReadAll(buf: bytes, chunks: seq<bytes>): (seq<Frame>, ReadResult)
    decreases |buf| + |Join(chunks)|
  {
    ReadConsumes(buf, chunks);
    var (r, buf', chunks') := NextFrame(buf, chunks);
    if r.Got? then
      var (fs, end) := ReadAll(buf', chunks');
      ([r.frame] + fs, end)
    else
      ([], r)
  }

  // ---- End to end -----------------------------------------------------------------

  /** The bytes `w` are read as the frame `g`, whatever follows, and a prefix of them is not an error. */
  ghost predicate Reads(w: bytes, g: Frame) {
    && w != []
    && (forall rest :: Check(w + rest) == Ok(|w|) && Parse(w + rest) == g)
    && (forall n :: 0 <= n < |w| ==> Check(w[..n]) == Err(Incomplete))
  }

  lemma {:induction false} WireReads(f: Frame)
    requires f.Encodable()
    ensures Reads(f.Wire(), f.Received())
  {
    forall rest
      ensures Check(f.Wire() + rest) == Ok(|f.Wire()|) && Parse(f.Wire() + rest) == f.Received()
    {
      WireRoundTrip(f, rest);
    }
    forall n | 0 <= n < |f.Wire()|
      ensures Check(f.Wire()[..n]) == Err(Incomplete)
    {
      PrefixIncomplete(f, n);
    }
  }

  /** How many whole pieces the first `cut` bytes hold. */
  function Whole(ws: seq<bytes>, cut: nat): (n: nat)
    ensures n <= |ws|
  {
    if ws == [] || cut < |ws[0]| then 0 else 1 + Whole(ws[1..], cut - |ws[0]|)
  }

  /** The cut falls between two pieces. */
  predicate OnBoundary(ws: seq<bytes>, cut: nat) {
    cut == 0 || (ws != [] && cut >= |ws[0]| && OnBoundary(ws[1..], cut - |ws[0]|))
  }

  /** `Whole` counts the pieces that end within the cut, and the cut is on a boundary exactly if the last
      of them ends there. */
  lemma {:induction false} WholeExactly(ws: seq<bytes>, cut: nat)
    requires forall i :: 0 <= i < |ws| ==> ws[i] != []
    ensures var n := Whole(ws, cut);
            && |Join(ws[..n])| <= cut && (n < |ws| ==> cut < |Join(ws[..n + 1])|)
            && (OnBoundary(ws, cut) <==> |Join(ws[..n])| == cut)
  {
    if ws != [] && |ws[0]| <= cut {
      var n := Whole(ws[1..], cut - |ws[0]|);
      WholeExactly(ws[1..], cut - |ws[0]|);
      assert ws[..n + 1][1..] == ws[1..][..n];
      assert n + 1 < |ws| ==> ws[..n + 2][1..] == ws[1..][..n + 1];
    } else if ws != [] {
      assert ws[..1] == [ws[0]] && ws[..1][1..] == [];
    }
  }

  predicate Chunked(chunks: seq<bytes>) {
    forall i :: 0 <= i < |chunks| ==> chunks[i] != []
  }

  lemma {:induction false} ChunkedNonEmpty(chunks: seq<bytes>)
    requires Chunked(chunks) && chunks != []
    ensures Join(chunks) != []
  {
    assert chunks[0] != [];
  }

  /** A buffer holding the whole first piece. */
  lemma {:induction false} BufferHolds(w: bytes, s: bytes, cut: nat, buf: bytes, more: bytes)
    requires cut <= |w + s| && buf + more == (w + s)[..cut] && |w| <= |buf|
    ensures |w| <= cut && buf == w + buf[|w|..] && buf[|w|..] + more == s[..cut - |w|]
  {
    assert (buf + more)[..|w|] == buf[..|w|];
    assert (w + s)[..cut][..|w|] == w;
    assert (buf + more)[|w|..] == buf[|w|..] + more;
    assert (w + s)[..cut][|w|..] == s[..cut - |w|];
  }

  /** A buffer holding only part of it. */
  lemma {:induction false} BufferPart(w: bytes, s: bytes, cut: nat, buf: bytes, more: bytes)
    requires cut <= |w + s| && buf + more == (w + s)[..cut] && |buf| < |w|
    ensures buf == w[..|buf|]
  {
    assert (buf + more)[..|buf|] == buf;
    assert (w + s)[..cut][..|buf|] == w[..|buf|];
  }

  lemma {:induction false} OnePiece(w: bytes, g: Frame, rest: bytes, chunks: seq<bytes>)
    requires Reads(w, g)
    ensures NextFrame(w + rest, chunks) == (Got(g), rest, chunks)
    ensures ReadAll(w + rest, chunks) == ([g] + ReadAll(rest, chunks).0, ReadAll(rest, chunks).1)
  {
    assert (w + rest)[|w|..] == rest;
  }

  lemma {:induction false} PartPiece(w: bytes, g: Frame, n: nat, chunks: seq<bytes>)
    requires Reads(w, g) && n < |w| && Chunked(chunks)
    ensures chunks != [] ==> ReadAll(w[..n], chunks) == ReadAll(w[..n] + chunks[0], chunks[1..])
    ensures chunks == [] ==> ReadAll(w[..n], chunks) == ([], if n == 0 then Closed else Failed(ConnectionReset))
  {
    assert Check(w[..n]) == Err(Incomplete);
    if chunks != [] {
      assert chunks[0] != [];
      assert NextFrame(w[..n], chunks) == NextFrame(w[..n] + chunks[0], chunks[1..]);
    }
  }

  ghost predicate AllRead(ws: seq<bytes>, gs: seq<Frame>) {
    |ws| == |gs| && forall i :: 0 <= i < |ws| ==> Reads(ws[i], gs[i])
  }

  function Ending(ws: seq<bytes>, cut: nat): ReadResult {
    if OnBoundary(ws, cut) then Closed else Failed(ConnectionReset)
  }

  lemma {:induction false} HeadDelivered(ws: seq<bytes>, gs: seq<Frame>, cut: nat, buf: bytes, chunks: seq<bytes>)
    requires AllRead(ws, gs) && ws != [] && |ws[0]| <= cut && |ws[0]| <= |buf| && buf == ws[0] + buf[|ws[0]|..]
    requires ReadAll(buf[|ws[0]|..], chunks)
          == (gs[1..][..Whole(ws[1..], cut - |ws[0]|)], Ending(ws[1..], cut - |ws[0]|))
    ensures ReadAll(buf, chunks) == (gs[..Whole(ws, cut)], Ending(ws, cut))
  {
    hide ReadAll, Reads;
    OnePiece(ws[0], gs[0], buf[|ws[0]|..], chunks);
    assert gs[..Whole(ws, cut)] == [gs[0]] + gs[1..][..Whole(ws[1..], cut - |ws[0]|)];
  }

  lemma {:induction false} NothingDelivered()
    ensures ReadAll([], []) == ([], Closed)
  {
  }

  lemma {:induction false} Delivered(ws: seq<bytes>, gs: seq<Frame>, cut: nat, buf: bytes, chunks: seq<bytes>)
    requires AllRead(ws, gs) && cut <= |Join(ws)|
    requires Chunked(chunks) && buf + Join(chunks) == Join(ws)[..cut]
    ensures ReadAll(buf, chunks) == (gs[..Whole(ws, cut)], Ending(ws, cut))
    decreases |ws|, |chunks|
  {
    hide Reads, Check, Parse;
    if ws == [] {
      if chunks != [] {
        ChunkedNonEmpty(chunks);
      }
      NothingDelivered();
    } else if |ws[0]| <= |buf| {
      var w := ws[0];
      BufferHolds(w, Join(ws[1..]), cut, buf, Join(chunks));
      Delivered(ws[1..], gs[1..], cut - |w|, buf[|w|..], chunks);
      HeadDelivered(ws, gs, cut, buf, chunks);
    } else {
      BufferPart(ws[0], Join(ws[1..]), cut, buf, Join(chunks));
      PartPiece(ws[0], gs[0], |buf|, chunks);
      if chunks == [] {
        assert cut == |buf| && Whole(ws, cut) == 0;
      } else {
        ConcatAssoc(buf, chunks[0], Join(chunks[1..]));
        Delivered(ws, gs, cut, buf + chunks[0], chunks[1..]);
      }
    }
  }

  function Received(fs: seq<Frame>): seq<Frame> {
    seq(|fs|, i requires 0 <= i < |fs| => fs[i].Received())
  }

  /** Whatever frames were handed to the write loop, however its writes and the reads were cut and
      wherever the stream ends: the reader gets exactly the encodable frames that arrived whole, in
      order, and reports a clean end exactly when the stream ends between two frames. */
  lemma {:induction false} TransportDelivers(tasks: seq<Frame>, cut: nat, chunks: seq<bytes>)
    requires cut <= |Stream(tasks)| && Chunked(chunks) && Join(chunks) == Stream(tasks)[..cut]
    ensures var fs := EncodableOf(tasks);
            ReadAll([], chunks) == (Received(fs)[..Whole(Wires(fs), cut)], Ending(Wires(fs), cut))
    ensures cut == |Stream(tasks)| ==> ReadAll([], chunks) == (Received(EncodableOf(tasks)), Closed)
  {
    var fs := EncodableOf(tasks);
    var ws, gs := Wires(fs), Received(fs);
    forall i | 0 <= i < |fs|
      ensures Reads(ws[i], gs[i])
    {
      WireReads(fs[i]);
    }
    assert [] + Join(chunks) == Join(chunks);
    Delivered(ws, gs, cut, [], chunks);
    if cut == |Stream(tasks)| {
      AllWhole(ws);
      assert gs[..|gs|] == gs;
    }
  }

  lemma {:induction false} AllWhole(ws: seq<bytes>)
    ensures Whole(ws, |Join(ws)|) == |ws| && OnBoundary(ws, |Join(ws)|)
  {
    if ws != [] {
      AllWhole(ws[1..]);
    }
  }

  // ---- A damaged stream -----------------------------------------------------------------

  /** Bytes that are refused are refused however they are cut into chunks. */
  lemma {:induction false} RefusedAtOnce(bad: bytes, e: FrameError, buf: bytes, chunks: seq<bytes>)
    requires Check(bad) == Err(e) && e != Incomplete && Chunked(chunks) && buf + Join(chunks) == bad
    ensures NextFrame(buf, chunks).0 == Failed(e) && ReadAll(buf, chunks) == ([], Failed(e))
    decreases |chunks|
  {
    hide Check, Parse;
    if Check(buf) == Err(Incomplete) {
      assert chunks == [] ==> buf == bad;
      assert chunks != [] && chunks[0] != [];
      ConcatAssoc(buf, chunks[0], Join(chunks[1..]));
      RefusedAtOnce(bad, e, buf + chunks[0], chunks[1..]);
    } else {
      CheckStable(buf, Join(chunks));
    }
  }

  lemma {:induction false} DamagedRest(ws: seq<bytes>, gs: seq<Frame>, bad: bytes, e: FrameError, buf: bytes, chunks: seq<bytes>)
    requires AllRead(ws, gs) && Check(bad) == Err(e) && e != Incomplete
    requires Chunked(chunks) && buf + Join(chunks) == Join(ws) + bad
    ensures ReadAll(buf, chunks) == (gs, Failed(e))
    decreases |ws|, |chunks|
  {
    hide Reads, Check, Parse;
    if ws == [] {
      assert [] + bad == bad;
      RefusedAtOnce(bad, e, buf, chunks);
    } else {
      var w, all := ws[0], Join(ws[1..]) + bad;
      ConcatAssoc(w, Join(ws[1..]), bad);
      assert (w + all)[..|w + all|] == w + all;
      if |w| <= |buf| {
        BufferHolds(w, all, |w + all|, buf, Join(chunks));
        DamagedRest(ws[1..], gs[1..], bad, e, buf[|w|..], chunks);
        OnePiece(w, gs[0], buf[|w|..], chunks);
        assert [gs[0]] + gs[1..] == gs;
      } else {
        BufferPart(w, all, |w + all|, buf, Join(chunks));
        PartPiece(w, gs[0], |buf|, chunks);
        if chunks != [] {
          ConcatAssoc(buf, chunks[0], Join(chunks[1..]));
          DamagedRest(ws, gs, bad, e, buf + chunks[0], chunks[1..]);
        }
      }
    }
  }

  /** Behind any number of whole frames comes something that is refused: the reader gets exactly those
      frames and then the reason, however the stream is cut. */
  lemma {:induction false} DamageIsReported(tasks: seq<Frame>, bad: bytes, e: FrameError, chunks: seq<bytes>)
    requires Check(bad) == Err(e) && e != Incomplete && Chunked(chunks) && Join(chunks) == Stream(tasks) + bad
    ensures ReadAll([], chunks) == (Received(EncodableOf(tasks)), Failed(e))
  {
    hide Check, Parse;
    var fs := EncodableOf(tasks);
    var ws, gs := Wires(fs), Received(fs);
    forall i | 0 <= i < |fs|
      ensures Reads(ws[i], gs[i])
    {
      WireReads(fs[i]);
    }
    assert [] + Join(chunks) == Join(chunks);
    DamagedRest(ws, gs, bad, e, [], chunks);
  }
}
