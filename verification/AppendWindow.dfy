/**
 The append window of a range replica and the replica around it
 (range-server/src/range_manager/window.rs, range.rs).
 */
module AppendWindow {
  import opened Prelude
  import opened ResourceModel

  datatype ServiceError = OffsetCommitted | OffsetInFlight | OffsetOutOfOrder | AlreadySealed | NotFound | Internal

  datatype WindowState = WindowState(next: nat, committed: nat) {

    function CheckBarrier(offset: nat, len: nat): (WindowState, Result<(), ServiceError>) {
      if offset < committed then (this, Err(OffsetCommitted))
      else if offset < next then (this, Err(OffsetInFlight))
      else if offset > next then (this, Err(OffsetOutOfOrder))
      else (this.(next := next + len), Ok(()))
    }

    function Commit(value: nat): WindowState { this.(committed := Max(committed, value)) }
  }

  class Window {
    var next: nat
    var committed: nat

    ghost function State(): WindowState
      reads this
    {
      WindowState(next, committed)
    }

    constructor (start: nat)
      ensures State() == WindowState(start, start)
    {
      next, committed := start, start;
    }

    /** Only the request at `next` gets through, and it alone moves the window; a request below it is
        told whether its offset is committed already. */
    method CheckBarrier(offset: nat, len: nat) returns (r: Result<(), ServiceError>)
      modifies this
      ensures committed == old(committed)
      ensures r.Ok? <==> old(committed) <= offset == old(next)
      ensures next == old(next) + if r.Ok? then len else 0
      ensures r == Err(OffsetCommitted) <==> offset < old(committed)
      ensures r == Err(OffsetInFlight) <==> old(committed) <= offset < old(next)
      ensures r == Err(OffsetOutOfOrder) <==> old(committed) <= offset && old(next) < offset
      ensures (State(), r) == old(State()).CheckBarrier(offset, len)
    {
      if offset < committed {
        return Err(OffsetCommitted);
      }
      if offset < next {
        return Err(OffsetInFlight);
      }
      if offset > next {
        return Err(OffsetOutOfOrder);
      }
      next := next + len;
      return Ok(());
    }

    /** The committed offset never moves back and is never behind the value. */
    method Commit(value: nat) returns (r: nat)
      modifies this`committed
      ensures r == committed && old(committed) <= r && value <= r && (r == value || r == old(committed))
      ensures State() == old(State()).Commit(value) && r == committed
    {
      if value > committed {
        committed := value;
      }
      r := committed;
    }
  }

  /** The value of a range replica. The window is dropped when the range is sealed. */
  datatype RangeState = RangeState(metadata: RangeMetadata, committed: Option<nat>, window: Option<WindowState>) {

    function CheckBarrier(offset: nat, len: nat): (RangeState, Result<(), ServiceError>) {
      match window
      case None => (this, Err(AlreadySealed))
      case Some(w) => (this.(window := Some(w.CheckBarrier(offset, len).0)), w.CheckBarrier(offset, len).1)
    }

    function Commit(value: nat): (RangeState, Result<(), ServiceError>) {
      match window
      case None => (this, Err(AlreadySealed))
      case Some(w) =>
        var w' := w.Commit(value);
        var c := if committed.Some? then Some(Max(committed.value, w'.committed))
                 else if w'.committed >= metadata.start then Some(w'.committed)
                 else None;
        (this.(window := Some(w'), committed := c), Ok(()))
    }

    /** The end a seal reports. */
    function SealEnd(): nat { committed.GetOr(metadata.start) }

    /** The replica after a seal request, and the request's metadata with the end filled in. */
    function Seal(request: RangeMetadata): (RangeState, RangeMetadata) {
      var m := if request.end.Some? then metadata.SetEnd(request.end.value) else metadata;
      (this.(metadata := m, window := None), request.SetEnd(SealEnd()))
    }
  }

  function NewRange(md: RangeMetadata): RangeState {
    RangeState(md, None, if md.end.Some? then None else Some(WindowState(md.start, md.start)))
  }

  class Range {
    var metadata: RangeMetadata
    var committed: Option<nat>
    var window: Window?

    ghost function State(): RangeState
      reads this, window
    {
      RangeState(metadata, committed, if window == null then None else Some(window.State()))
    }

    /** A range without an end accepts appends from its start on; one with an end accepts none. */
    constructor (md: RangeMetadata)
      ensures metadata == md && committed == None && (window == null <==> md.end.Some?)
      ensures window != null ==> fresh(window) && window.next == window.committed == md.start
      ensures State() == NewRange(md)
    {
      metadata := md;
      committed := None;
      if md.end.Some? {
        window := null;
      } else {
        window := new Window(md.start);
      }
    }

    method CheckBarrier(offset: nat, len: nat) returns (r: Result<(), ServiceError>)
      modifies window
      ensures (State(), r) == old(State()).CheckBarrier(offset, len)
    {
      if window == null {
        return Err(AlreadySealed);
      }
      r := window.CheckBarrier(offset, len);
    }

    /** Fails exactly on a sealed range, changing nothing. Otherwise the committed offset covers the new
        one, never moves back, and is set as soon as it reaches the range start. */
    method Commit(newCommitted: nat) returns (r: Result<(), ServiceError>)
      modifies this, window
      ensures metadata == old(metadata) && window == old(window)
      ensures r == (if old(window) == null then Err(AlreadySealed) else Ok(()))
      ensures r.Err? ==> committed == old(committed)
      ensures r.Ok? ==> newCommitted <= window.committed && old(window.committed) <= window.committed
      ensures r.Ok? && metadata.start <= newCommitted ==> committed.Some? && newCommitted <= committed.value
      ensures old(committed).Some? ==> committed.Some? && old(committed).value <= committed.value
      ensures (State(), r) == old(State()).Commit(newCommitted)
    {
      if window == null {
        return Err(AlreadySealed);
      }
      var moved := window.Commit(newCommitted);
      if committed.Some? {
        if moved > committed.value {
          committed := Some(moved);
        }
        return Ok(());
      }
      if moved >= metadata.start {
        committed := Some(moved);
      }
      return Ok(());
    }

    method Seal(request: RangeMetadata) returns (sealed: RangeMetadata)
      modifies this
      ensures (State(), sealed) == old(State()).Seal(request)
    {
      var end := committed.GetOr(metadata.start);
      if request.end.Some? {
        metadata := metadata.SetEnd(request.end.value);
      }
      sealed := request.SetEnd(end);
      window := null;
    }
  }

  /** A sealed replica takes over the end it is told, and no other metadata; it refuses every append and
      commit and reports the same end to every later seal. */
  lemma {:induction false} SealedForGood(r: RangeState, first: RangeMetadata, later: RangeMetadata, offset: nat, len: nat)
    ensures var (s, sealed) := r.Seal(first);
            && sealed.end == Some(if r.committed.Some? then r.committed.value else r.metadata.start)
            && s.metadata.end == (if first.end.Some? then first.end else r.metadata.end)
            && s.metadata.(end := r.metadata.end) == r.metadata && s.committed == r.committed
            && s.CheckBarrier(offset, len) == (s, Err(AlreadySealed))
            && s.Commit(offset) == (s, Err(AlreadySealed))
            && s.Seal(later).1.end == sealed.end
            && (later.end.None? ==> s.Seal(later).0 == s)
  {
    var s := r.Seal(first).0;
    assert s.window == None && s.metadata.start == r.metadata.start;
  }

  // ---- Runs of one replica --------------------------------------------------------

  datatype Batch = Batch(offset: nat, len: nat) {
    function End(): nat { offset + len }
  }

  datatype ReplicaOp =
    | Append(batch: Batch)
    | CommitTo(end: nat)
    | SealWith(request: RangeMetadata)
    | Replace(metadata: RangeMetadata)  // a trim or a metadata event

  /** A replica together with the batches it has accepted, in order. */
  datatype Run = Run(range: RangeState, accepted: seq<Batch>)

  function Apply(run: Run, op: ReplicaOp): Run {
    match op
    case Append(b) =>
      var (r, ok) := run.range.CheckBarrier(b.offset, b.len);
      Run(r, if ok.Ok? then run.accepted + [b] else run.accepted)
    case CommitTo(end) => run.(range := run.range.Commit(end).0)
    case SealWith(request) => run.(range := run.range.Seal(request).0)
    case Replace(md) => run.(range := run.range.(metadata := md))
  }

  function ApplyAll(run: Run, ops: seq<ReplicaOp>): Run
    decreases |ops|
  {
    if ops == [] then run else ApplyAll(Apply(run, ops[0]), ops[1..])
  }

  /** Where `n` accepted batches end. */
  function Reach(accepted: seq<Batch>, start: nat, n: nat): nat
    requires n <= |accepted|
  {
    if n == 0 then start else accepted[n - 1].End()
  }

  /** Batches that follow each other without gap or overlap from `start` on. */
  ghost predicate Tiles(accepted: seq<Batch>, start: nat) {
    forall i :: 0 <= i < |accepted| ==> Follows(accepted, start, i)
  }

  ghost predicate Follows(accepted: seq<Batch>, start: nat, i: nat)
    requires i < |accepted|
  {
    accepted[i].offset == Reach(accepted, start, i)
  }

  /** The range start or the end of an accepted batch. */
  ghost predicate Boundary(accepted: seq<Batch>, start: nat, v: nat) {
    exists n :: 0 <= n <= |accepted| && Reach(accepted, start, n) == v
  }

  /** Commits name the ends of accepted batches. */
  predicate CommitsAccepted(run: Run, ops: seq<ReplicaOp>)
    decreases |ops|
  {
    ops == [] || ((ops[0].CommitTo? ==> exists i :: 0 <= i < |run.accepted| && run.accepted[i].End() == ops[0].end)
                  && CommitsAccepted(Apply(run, ops[0]), ops[1..]))
  }

  ghost predicate WindowInv(run: Run, start: nat) {
    && Tiles(run.accepted, start)
    && (run.range.committed.Some? ==> Boundary(run.accepted, start, run.range.committed.value))
    && (run.range.window.Some? ==>
          var w := run.range.window.value;
          && w.next == Reach(run.accepted, start, |run.accepted|)
          && Boundary(run.accepted, start, w.committed)
          && (run.range.committed.Some? ==> run.range.committed.value == w.committed))
  }

  lemma {:induction false} ReachGrows(accepted: seq<Batch>, start: nat, i: nat, j: nat)
    requires Tiles(accepted, start) && i <= j <= |accepted|
    ensures start <= Reach(accepted, start, i) <= Reach(accepted, start, j)
    decreases j
  {
    if i < j {
      assert Follows(accepted, start, j - 1);
      ReachGrows(accepted, start, i, j - 1);
    } else if j > 0 {
      assert Follows(accepted, start, j - 1);
      ReachGrows(accepted, start, i - 1, j - 1);
    }
  }

  lemma {:induction false} BoundaryBounds(accepted: seq<Batch>, start: nat, v: nat)
    requires Tiles(accepted, start) && Boundary(accepted, start, v)
    ensures start <= v <= Reach(accepted, start, |accepted|)
  {
    var n :| 0 <= n <= |accepted| && Reach(accepted, start, n) == v;
    ReachGrows(accepted, start, n, |accepted|);
  }

  lemma {:induction false} BoundarySnoc(accepted: seq<Batch>, start: nat, v: nat, b: Batch)
    requires Boundary(accepted, start, v)
    ensures Boundary(accepted + [b], start, v)
  {
    var n :| 0 <= n <= |accepted| && Reach(accepted, start, n) == v;
    assert Reach(accepted + [b], start, n) == v;
  }

  lemma {:induction false} TilesSnoc(accepted: seq<Batch>, start: nat, b: Batch)
    requires Tiles(accepted, start) && b.offset == Reach(accepted, start, |accepted|)
    ensures Tiles(accepted + [b], start)
  {
    var more := accepted + [b];
    forall i | 0 <= i < |more|
      ensures Follows(more, start, i)
    {
      assert i < |accepted| ==> Follows(accepted, start, i);
    }
  }

  lemma {:induction false} WindowStep(run: Run, start: nat, op: ReplicaOp)
    requires WindowInv(run, start)
    requires op.CommitTo? ==> Boundary(run.accepted, start, op.end)
    ensures WindowInv(Apply(run, op), start)
  {
    match op {
      case Append(b) =>
        var next := Apply(run, op);
        if next.accepted != run.accepted {
          TilesSnoc(run.accepted, start, b);
          BoundarySnoc(run.accepted, start, run.range.window.value.committed, b);
          if run.range.committed.Some? {
            BoundarySnoc(run.accepted, start, run.range.committed.value, b);
          }
        }
      case CommitTo(_) =>
      case SealWith(_) =>
      case Replace(_) =>
    }
  }

  lemma {:induction false} WindowRun(run: Run, start: nat, ops: seq<ReplicaOp>)
    requires WindowInv(run, start) && CommitsAccepted(run, ops)
    ensures WindowInv(ApplyAll(run, ops), start)
    ensures (forall op :: op in ops ==> !op.Replace?) ==>
              ApplyAll(run, ops).range.metadata.start == run.range.metadata.start
    ensures ApplyAll(run, ops).range.window.None? <==> run.range.window.None? || exists op :: op in ops && op.SealWith?
    decreases |ops|
  {
    if ops != [] {
      if ops[0].CommitTo? {
        var i :| 0 <= i < |run.accepted| && run.accepted[i].End() == ops[0].end;
        assert Reach(run.accepted, start, i + 1) == ops[0].end;
      }
      assert forall op :: op in ops <==> op == ops[0] || op in ops[1..];
      WindowStep(run, start, ops[0]);
      WindowRun(Apply(run, ops[0]), start, ops[1..]);
    }
  }

  /** Over every run of a fresh replica: the accepted batches tile the range from its start to
      `next`; `start <= committed <= next`; a set committed offset of the replica is the window's;
      and, unless the range was trimmed, the end a seal reports is the range start or the end of an
      accepted batch. It has a window exactly as long as it was not sealed. */
  lemma {:induction false} WindowTiling(md: RangeMetadata, ops: seq<ReplicaOp>)
    requires md.end.None? && CommitsAccepted(Run(NewRange(md), []), ops)
    ensures var run := ApplyAll(Run(NewRange(md), []), ops);
            && Tiles(run.accepted, md.start)
            && (run.range.window.None? <==> exists op :: op in ops && op.SealWith?)
            && ((forall op :: op in ops ==> !op.Replace?) ==> Boundary(run.accepted, md.start, run.range.SealEnd()))
            && (run.range.window.Some? ==>
                  var w := run.range.window.value;
                  && w.next == Reach(run.accepted, md.start, |run.accepted|)
                  && md.start <= w.committed <= w.next
                  && (run.range.committed.Some? ==> run.range.committed.value == w.committed))
  {
    var initial := Run(NewRange(md), []);
    assert Reach(initial.accepted, md.start, 0) == md.start;
    WindowRun(initial, md.start, ops);
    var run := ApplyAll(initial, ops);
    assert Reach(run.accepted, md.start, 0) == md.start;
    if run.range.window.Some? {
      BoundaryBounds(run.accepted, md.start, run.range.window.value.committed);
    }
  }

  /** Accepted batches never share an offset, so no non-empty batch is accepted twice. */
  lemma {:induction false} AcceptedDisjoint(accepted: seq<Batch>, start: nat, i: nat, j: nat)
    requires Tiles(accepted, start) && i < j < |accepted|
    ensures accepted[i].End() <= accepted[j].offset
  {
    assert Follows(accepted, start, j);
    ReachGrows(accepted, start, i + 1, j);
  }

  /** Tiles leave no offset out. */
  lemma {:induction false} AcceptedCover(accepted: seq<Batch>, start: nat, n: nat, off: nat) returns (i: nat)
    requires Tiles(accepted, start) && n <= |accepted| && start <= off < Reach(accepted, start, n)
    ensures i < n && accepted[i].offset <= off < accepted[i].End()
  {
    assert Follows(accepted, start, n - 1);
    if off >= accepted[n - 1].offset {
      i := n - 1;
    } else {
      i := AcceptedCover(accepted, start, n - 1, off);
    }
  }
}
