/**
 Replication of one range: the range servers, a writer that acknowledges an offset once
 `ackCount` servers have it, and clients that seal the range from the replies of
 `replicaCount - ackCount + 1` servers
 (components/replication/src/stream/replication_range.rs, replication_replica.rs;
 components/model/src/range/mod.rs; range-server/src/range_manager/range.rs).
 */
module SealQuorum {
  import opened Prelude
  import opened ResourceModel
  import opened AppendWindow

  // ---- Order statistics -----------------------------------------------------------

  function InsertUp(x: nat, s: seq<nat>): seq<nat> {
    if s == [] || x <= s[0] then [x] + s else [s[0]] + InsertUp(x, s[1..])
  }

  function SortUp(s: seq<nat>): seq<nat> {
    if s == [] then [] else InsertUp(s[0], SortUp(s[1..]))
  }

  function CountBelow(s: seq<nat>, c: nat): nat {
    if s == [] then 0 else (if s[0] < c then 1 else 0) + CountBelow(s[1..], c)
  }

  ghost predicate Ascending(s: seq<nat>) {
    forall i, j :: 0 <= i <= j < |s| ==> s[i] <= s[j]
  }

  lemma {:induction false} InsertUpKeeps(x: nat, s: seq<nat>, c: nat)
    requires Ascending(s)
    ensures Ascending(InsertUp(x, s)) && |InsertUp(x, s)| == |s| + 1
    ensures forall i :: 0 <= i <= |s| ==> InsertUp(x, s)[i] == x || InsertUp(x, s)[i] in s
    ensures CountBelow(InsertUp(x, s), c) == CountBelow(s, c) + if x < c then 1 else 0
  {
    InsertUpCount(x, s, c);
    if s != [] && s[0] < x {
      hide CountBelow;
      InsertUpKeeps(x, s[1..], c);
      assert forall y :: y in s[1..] ==> s[0] <= y;
    }
  }

  lemma {:induction false} InsertUpCount(x: nat, s: seq<nat>, c: nat)
    ensures CountBelow(InsertUp(x, s), c) == CountBelow(s, c) + if x < c then 1 else 0
  {
    if s == [] || x <= s[0] {
      assert ([x] + s)[1..] == s;
    } else {
      InsertUpCount(x, s[1..], c);
      var rest := InsertUp(x, s[1..]);
      assert ([s[0]] + rest)[1..] == rest;
    }
  }

  lemma {:induction false} SortUpKeeps(s: seq<nat>, c: nat)
    ensures Ascending(SortUp(s)) && |SortUp(s)| == |s| && CountBelow(SortUp(s), c) == CountBelow(s, c)
  {
    if s != [] {
      SortUpKeeps(s[1..], c);
      InsertUpKeeps(s[0], SortUp(s[1..]), c);
    }
  }

  lemma {:induction false} AscendingCount(s: seq<nat>, k: nat, c: nat)
    requires Ascending(s) && k < |s|
    ensures CountBelow(s, c) <= k <==> s[k] >= c
  {
    if s[0] >= c {
      NoneBelow(s, c);
    } else if k > 0 {
      AscendingCount(s[1..], k - 1, c);
    }
  }

  lemma {:induction false} NoneBelow(s: seq<nat>, c: nat)
    requires forall i :: 0 <= i < |s| ==> s[i] >= c
    ensures CountBelow(s, c) == 0
  {
    if s != [] {
      NoneBelow(s[1..], c);
    }
  }

  /** The element at position `k` of the sorted list is at least `c` exactly when at most `k`
      elements are below `c`. */
  lemma {:induction false} NthIff(s: seq<nat>, k: nat, c: nat)
    requires k < |s|
    ensures |SortUp(s)| == |s| && (SortUp(s)[k] >= c <==> CountBelow(s, c) <= k)
  {
    SortUpKeeps(s, c);
    AscendingCount(SortUp(s), k, c);
  }

  lemma {:induction false} CountSnoc(s: seq<nat>, x: nat, c: nat)
    ensures CountBelow(s + [x], c) == CountBelow(s, c) + if x < c then 1 else 0
  {
    if s != [] {
      CountSnoc(s[1..], x, c);
      assert (s + [x])[1..] == s[1..] + [x];
    }
  }

  lemma {:induction false} CountLength(s: seq<nat>, c: nat)
    ensures CountBelow(s, c) <= |s|
  {
    if s != [] {
      CountLength(s[1..], c);
    }
  }

  // ---- The two quorum rules -------------------------------------------------------

  datatype QuorumError = ReplicaNotEnough

  /** `calculate_confirm_offset0`: the `ackCount`-th largest of the usable replicas' offsets. */
  function ConfirmOffset(usable: seq<nat>, ackCount: nat): Result<nat, QuorumError>
    requires ackCount >= 1
  {
    SortUpKeeps(usable, 0);
    if ackCount <= |usable| then Ok(SortUp(usable)[|usable| - ackCount]) else Err(ReplicaNotEnough)
  }

  /** `replicas_seal0`: the end offset at position `replicaCount - ackCount` of the sorted replies. */
  function SealOffset(ends: seq<nat>, replicaCount: nat, ackCount: nat): Result<nat, QuorumError>
    requires ackCount <= replicaCount
  {
    SortUpKeeps(ends, 0);
    if replicaCount - ackCount < |ends| then Ok(SortUp(ends)[replicaCount - ackCount]) else Err(ReplicaNotEnough)
  }

  /** An offset is confirmed exactly with `ackCount` usable replicas. It is reached by at least
      `ackCount` of them, and no larger offset is. */
  lemma {:induction false} ConfirmMeansAckCount(usable: seq<nat>, ackCount: nat, c: nat)
    requires 1 <= ackCount
    ensures ConfirmOffset(usable, ackCount).Ok? <==> ackCount <= |usable|
    ensures ConfirmOffset(usable, ackCount).Ok? ==>
              (c <= ConfirmOffset(usable, ackCount).value <==> |usable| - CountBelow(usable, c) >= ackCount)
  {
    if ackCount <= |usable| {
      NthIff(usable, |usable| - ackCount, c);
    }
  }

  /** A seal succeeds exactly with `replicaCount - ackCount + 1` replies, and seals at the largest offset
      that at most `replicaCount - ackCount` of them end below: the data below it is on all the other
      replying servers. The offset is one of the replies. */
  lemma {:induction false} SealedDataIsHeld(ends: seq<nat>, replicaCount: nat, ackCount: nat, c: nat)
    requires ackCount <= replicaCount
    ensures SealOffset(ends, replicaCount, ackCount).Ok? <==> |ends| >= replicaCount - ackCount + 1
    ensures SealOffset(ends, replicaCount, ackCount).Ok? ==>
              && (c <= SealOffset(ends, replicaCount, ackCount).value <==> CountBelow(ends, c) <= replicaCount - ackCount)
              && SealOffset(ends, replicaCount, ackCount).value in ends
  {
    var k := replicaCount - ackCount;
    if k < |ends| {
      NthIff(ends, k, c);
      var v := SealOffset(ends, replicaCount, ackCount).value;
      NthIff(ends, k, v);
      NthIff(ends, k, v + 1);
      CountGrows(ends, v);
    }
  }

  /** More elements are below the successor only if the element itself occurs. */
  lemma {:induction false} CountGrows(s: seq<nat>, v: nat)
    ensures CountBelow(s, v) < CountBelow(s, v + 1) ==> v in s
  {
    if s != [] {
      CountGrows(s[1..], v);
    }
  }

  // ---- The system -----------------------------------------------------------------

  /** The writer's view: what each replica acknowledged, the confirmed offset, and the two reasons for
      which it confirms no more: a seal under way, or too few replicas. */
  datatype Writer = Writer(confirms: seq<nat>, corrupted: seq<bool>, confirm: nat, sealing: bool, broken: bool) {

    predicate Writable() { !sealing && !broken }

    function Usable(): seq<nat>
      requires |corrupted| == |confirms|
    {
      Filter(confirms, corrupted)
    }

    /** `try_ack`. */
    function TryAck(ackCount: nat): Writer
      requires ackCount >= 1 && |corrupted| == |confirms|
    {
      if !Writable() then this
      else match ConfirmOffset(Usable(), ackCount)
        case Err(_) => this.(broken := true)
        case Ok(c) => if c > confirm then this.(confirm := c) else this
    }

    /** The reply of replica `i` to an append that ends at `v`. */
    function OnAck(i: nat, v: nat): Writer
      requires i < |confirms|
    {
      this.(confirms := confirms[i := Max(confirms[i], v)])
    }
  }

  function Filter(confirms: seq<nat>, corrupted: seq<bool>): seq<nat>
    requires |corrupted| == |confirms|
  {
    if confirms == [] then []
    else (if corrupted[0] then [] else [confirms[0]]) + Filter(confirms[1..], corrupted[1..])
  }

  /** `oks[i]`: the offsets whose commit succeeded on server i. `reports`: every answer to a seal. */
  datatype Cluster = Cluster(servers: seq<RangeState>, oks: seq<set<nat>>, reports: seq<(nat, nat)>, writer: Writer)

  datatype Step =
    | AtServer(server: nat, op: ReplicaOp)
    | Acked(replica: nat, end: nat)
    | Corrupt(broken: nat)
    | SealBegins
    | SealFails

  predicate Shape(k: Cluster) {
    |k.oks| == |k.servers| == |k.writer.confirms| == |k.writer.corrupted|
  }

  /** Range starts are only moved up, and an acknowledgement is a commit that succeeded. */
  predicate Enabled(k: Cluster, s: Step)
    requires Shape(k)
  {
    match s
    case AtServer(i, op) => i < |k.servers| && (op.Replace? ==> k.servers[i].metadata.start <= op.metadata.start)
    case Acked(i, v) => i < |k.servers| && v in k.oks[i]
    case Corrupt(i) => i < |k.servers|
    case _ => true
  }

  function ServerStep(k: Cluster, i: nat, op: ReplicaOp): Cluster
    requires Shape(k) && i < |k.servers|
  {
    var s := k.servers[i];
    match op
    case Append(b) => k.(servers := k.servers[i := s.CheckBarrier(b.offset, b.len).0])
    case CommitTo(v) =>
      var (s', ok) := s.Commit(v);
      k.(servers := k.servers[i := s'], oks := if ok.Ok? then k.oks[i := k.oks[i] + {v}] else k.oks)
    case SealWith(request) =>
      var (s', sealed) := s.Seal(request);
      k.(servers := k.servers[i := s'], reports := k.reports + [(i, sealed.end.GetOr(0))])
    case Replace(md) => k.(servers := k.servers[i := s.(metadata := md)])
  }

  function Next(k: Cluster, s: Step, ackCount: nat): (k': Cluster)
    requires Shape(k) && Enabled(k, s) && ackCount >= 1
    ensures Shape(k')
  {
    match s
    case AtServer(i, op) => ServerStep(k, i, op)
    case Acked(i, v) => k.(writer := k.writer.OnAck(i, v).TryAck(ackCount))
    case Corrupt(i) => k.(writer := k.writer.(corrupted := k.writer.corrupted[i := true]).TryAck(ackCount))
    case SealBegins => k.(writer := k.writer.(sealing := true))
    case SealFails => k.(writer := k.writer.(sealing := false))
  }

  function Init(md: RangeMetadata, n: nat): (k: Cluster)
    ensures Shape(k)
  {
    Cluster(seq(n, i => NewRange(md)), seq(n, i => {}), [],
            Writer(seq(n, i => md.start), seq(n, i => false), md.start, false, false))
  }

  ghost predicate IsRun(k: Cluster, steps: seq<Step>, ackCount: nat, end: Cluster)
    requires Shape(k) && ackCount >= 1
    decreases |steps|
  {
    if steps == [] then k == end
    else Enabled(k, steps[0]) && IsRun(Next(k, steps[0], ackCount), steps[1..], ackCount, end)
  }

  // ---- Invariants -----------------------------------------------------------------

  /** Whatever a server has committed successfully is below the end it would report. */
  ghost predicate ServerInv(s: RangeState, oks: set<nat>, start: nat) {
    && start <= s.metadata.start
    && start <= s.SealEnd()
    && (s.window.Some? ==> start <= s.window.value.committed)
    && (forall v :: v in oks ==> v <= s.SealEnd())
    && (s.window.Some? ==> s.window.value.committed == start || s.window.value.committed in oks)
    && (s.committed.Some? ==> s.committed.value <= s.metadata.start || s.committed.value in oks)
  }

  /** A reported end is final for its server: an offset that was committed there, the largest one, or no
      more than the start of the range. */
  ghost predicate ReportInv(k: Cluster, start: nat, r: (nat, nat))
    requires Shape(k)
  {
    && r.0 < |k.servers| && k.servers[r.0].window.None? && start <= r.1
    && (forall v :: v in k.oks[r.0] ==> v <= r.1)
    && (r.1 in k.oks[r.0] || r.1 <= k.servers[r.0].metadata.start)
  }

  ghost predicate WriterInv(k: Cluster, start: nat, ackCount: nat)
    requires Shape(k)
  {
    && (forall i :: 0 <= i < |k.servers| ==> k.writer.confirms[i] == start || k.writer.confirms[i] in k.oks[i])
    && |k.servers| - CountBelow(k.writer.confirms, k.writer.confirm) >= ackCount
  }

  ghost predicate Inv(k: Cluster, start: nat, ackCount: nat) {
    && Shape(k)
    && (forall i :: 0 <= i < |k.servers| ==> ServerInv(k.servers[i], k.oks[i], start))
    && (forall j :: 0 <= j < |k.reports| ==> ReportInv(k, start, k.reports[j]))
    && WriterInv(k, start, ackCount)
  }

  lemma {:induction false} FilterCount(confirms: seq<nat>, corrupted: seq<bool>, c: nat)
    requires |corrupted| == |confirms|
    ensures var f := Filter(confirms, corrupted);
            |f| - CountBelow(f, c) <= |confirms| - CountBelow(confirms, c)
  {
    if confirms != [] {
      var rest := Filter(confirms[1..], corrupted[1..]);
      FilterCount(confirms[1..], corrupted[1..], c);
      assert ([confirms[0]] + rest)[1..] == rest;
      assert [] + rest == rest;
    }
  }

  lemma {:induction false} RaiseCount(s: seq<nat>, i: nat, v: nat, c: nat)
    requires i < |s| && s[i] <= v
    ensures CountBelow(s[i := v], c) <= CountBelow(s, c)
  {
    if i > 0 {
      RaiseCount(s[1..], i - 1, v, c);
      assert s[i := v][1..] == s[1..][i - 1 := v];
    } else {
      assert s[i := v][1..] == s[1..];
    }
  }

  lemma {:induction false} TryAckKeeps(w: Writer, ackCount: nat)
    requires ackCount >= 1 && |w.corrupted| == |w.confirms|
    requires |w.confirms| - CountBelow(w.confirms, w.confirm) >= ackCount
    ensures var w' := w.TryAck(ackCount);
            w'.confirms == w.confirms && |w.confirms| - CountBelow(w.confirms, w'.confirm) >= ackCount
  {
    var usable := w.Usable();
    if ackCount <= |usable| {
      var c := ConfirmOffset(usable, ackCount).value;
      ConfirmMeansAckCount(usable, ackCount, c);
      FilterCount(w.confirms, w.corrupted, c);
    }
  }

  lemma {:induction false} ServerStepKeeps(k: Cluster, i: nat, op: ReplicaOp, start: nat, ackCount: nat)
    requires Inv(k, start, ackCount) && Enabled(k, AtServer(i, op))
    ensures Inv(ServerStep(k, i, op), start, ackCount)
  {
    var k' := ServerStep(k, i, op);
    assert ServerInv(k.servers[i], k.oks[i], start);
    assert ServerInv(k'.servers[i], k'.oks[i], start);
    forall j | 0 <= j < |k'.reports|
      ensures ReportInv(k', start, k'.reports[j])
    {
      if j < |k.reports| {
        assert ReportInv(k, start, k.reports[j]);
      }
    }
  }

  lemma {:induction false} StepKeeps(k: Cluster, s: Step, start: nat, ackCount: nat)
    requires Inv(k, start, ackCount) && Enabled(k, s) && ackCount >= 1
    ensures Inv(Next(k, s, ackCount), start, ackCount)
  {
    match s {
      case AtServer(i, op) => ServerStepKeeps(k, i, op, start, ackCount);
      case Acked(i, v) =>
        RaiseCount(k.writer.confirms, i, Max(k.writer.confirms[i], v), k.writer.confirm);
        TryAckKeeps(k.writer.OnAck(i, v), ackCount);
        ReportsKept(k, k.(writer := k.writer.OnAck(i, v).TryAck(ackCount)), start);
      case Corrupt(i) =>
        var w := k.writer.(corrupted := k.writer.corrupted[i := true]);
        TryAckKeeps(w, ackCount);
        ReportsKept(k, k.(writer := w.TryAck(ackCount)), start);
      case SealBegins =>
        ReportsKept(k, k.(writer := k.writer.(sealing := true)), start);
      case SealFails =>
        ReportsKept(k, k.(writer := k.writer.(sealing := false)), start);
    }
  }

  lemma {:induction false} ReportsKept(k: Cluster, k': Cluster, start: nat)
    requires Shape(k) && Shape(k') && k'.servers == k.servers && k'.oks == k.oks && k'.reports == k.reports
    requires forall j :: 0 <= j < |k.reports| ==> ReportInv(k, start, k.reports[j])
    ensures forall j :: 0 <= j < |k'.reports| ==> ReportInv(k', start, k'.reports[j])
  {
    forall j | 0 <= j < |k'.reports|
      ensures ReportInv(k', start, k'.reports[j])
    {
      assert ReportInv(k, start, k.reports[j]);
    }
  }

  lemma {:induction false} RunKeeps(k: Cluster, steps: seq<Step>, start: nat, ackCount: nat, end: Cluster)
    requires Inv(k, start, ackCount) && ackCount >= 1 && IsRun(k, steps, ackCount, end)
    ensures Inv(end, start, ackCount)
    decreases |steps|
  {
    if steps != [] {
      StepKeeps(k, steps[0], start, ackCount);
      RunKeeps(Next(k, steps[0], ackCount), steps[1..], start, ackCount, end);
    }
  }

  lemma {:induction false} InitInv(md: RangeMetadata, n: nat, ackCount: nat)
    requires md.end.None? && ackCount <= n
    ensures Inv(Init(md, n), md.start, ackCount)
  {
    NoneBelow(Init(md, n).writer.confirms, md.start);
  }

  // ---- Replies of distinct servers ------------------------------------------------

  function Ends(replies: seq<(nat, nat)>): seq<nat> {
    seq(|replies|, i requires 0 <= i < |replies| => replies[i].1)
  }

  /** One sealing client hears from each server at most once. */
  ghost predicate Distinct(replies: seq<(nat, nat)>) {
    forall i, j :: 0 <= i < j < |replies| ==> replies[i].0 != replies[j].0
  }

  ghost function LowServers(replies: seq<(nat, nat)>, c: nat): set<nat> {
    set j | 0 <= j < |replies| && replies[j].1 < c :: replies[j].0
  }

  ghost function LowPositions(s: seq<nat>, c: nat): set<nat> {
    set i | 0 <= i < |s| && s[i] < c
  }

  lemma {:induction false} LowServersNone(c: nat)
    ensures |LowServers([], c)| == 0
  {
  }

  lemma {:induction false} LowServersSnoc(front: seq<(nat, nat)>, last: (nat, nat), c: nat)
    requires Distinct(front + [last])
    ensures |LowServers(front + [last], c)| == |LowServers(front, c)| + if last.1 < c then 1 else 0
  {
    var all := front + [last];
    var low := if last.1 < c then {last.0} else {};
    forall x
      ensures x in LowServers(all, c) <==> x in LowServers(front, c) + low
    {
      LowIff(front, last, c, x);
    }
    assert LowServers(all, c) == LowServers(front, c) + low;
    assert last.0 !in LowServers(front, c) by {
      assert all[|front|] == last;
      assert forall j :: 0 <= j < |front| ==> front[j].0 == all[j].0;
    }
  }

  lemma {:induction false} LowIff(front: seq<(nat, nat)>, last: (nat, nat), c: nat, x: nat)
    ensures x in LowServers(front + [last], c) <==> x in LowServers(front, c) || (last.1 < c && x == last.0)
  {
    var all := front + [last];
    if x in LowServers(front, c) {
      var j :| 0 <= j < |front| && front[j].1 < c && front[j].0 == x;
      assert all[j] == front[j];
    }
    if last.1 < c && x == last.0 {
      assert all[|front|] == last;
    }
  }

  lemma {:induction false} CountIsLowServers(replies: seq<(nat, nat)>, c: nat)
    requires Distinct(replies)
    ensures CountBelow(Ends(replies), c) == |LowServers(replies, c)|
  {
    hide LowServers;
    if replies != [] {
      var n := |replies| - 1;
      var front, last := replies[..n], replies[n];
      CountIsLowServers(front, c);
      assert Ends(replies) == Ends(front) + [last.1];
      CountSnoc(Ends(front), last.1, c);
      LowServersSnoc(front, last, c);
      assert front + [last] == replies;
    } else {
      LowServersNone(c);
    }
  }

  lemma {:induction false} CountIsLowPositions(s: seq<nat>, c: nat)
    ensures CountBelow(s, c) == |LowPositions(s, c)|
  {
    if s != [] {
      var n := |s| - 1;
      CountIsLowPositions(s[..n], c);
      assert s == s[..n] + [s[n]];
      CountSnoc(s[..n], s[n], c);
      if s[n] < c {
        assert LowPositions(s, c) == LowPositions(s[..n], c) + {n};
      } else {
        assert LowPositions(s, c) == LowPositions(s[..n], c);
      }
    }
  }

  lemma {:induction false} SubsetSize(a: set<nat>, b: set<nat>)
    requires a <= b
    ensures |a| <= |b|
  {
    if a != {} {
      var x :| x in a;
      SubsetSize(a - {x}, b - {x});
    }
  }

  /** Replies below the confirmed offset come from servers that did not acknowledge it. */
  lemma {:induction false} FewLowReplies(k: Cluster, start: nat, ackCount: nat, replies: seq<(nat, nat)>)
    requires Inv(k, start, ackCount) && Distinct(replies)
    requires forall i :: 0 <= i < |replies| ==> replies[i] in k.reports
    ensures CountBelow(Ends(replies), k.writer.confirm) + ackCount <= |k.servers|
  {
    var c := k.writer.confirm;
    CountIsLowServers(replies, c);
    CountIsLowPositions(k.writer.confirms, c);
    forall i | i in LowServers(replies, c)
      ensures i in LowPositions(k.writer.confirms, c)
    {
      var j :| 0 <= j < |replies| && replies[j].1 < c && replies[j].0 == i;
      var r :| 0 <= r < |k.reports| && k.reports[r] == replies[j];
      assert ReportInv(k, start, k.reports[r]);
    }
    SubsetSize(LowServers(replies, c), LowPositions(k.writer.confirms, c));
  }

  /** In every run, with at least `ackCount` and at most `replicaCount` servers: an end offset
      computed from the seal replies of distinct servers is never below an offset the writer has
      confirmed, whether the confirmation came before or after the seal. */
  lemma {:induction false} SealNeverLosesConfirmed(md: RangeMetadata, n: nat, replicaCount: nat, ackCount: nat,
                                steps: seq<Step>, end: Cluster, replies: seq<(nat, nat)>)
    requires md.end.None? && 1 <= ackCount <= n <= replicaCount
    requires IsRun(Init(md, n), steps, ackCount, end)
    requires Distinct(replies) && forall i :: 0 <= i < |replies| ==> replies[i] in end.reports
    ensures SealOffset(Ends(replies), replicaCount, ackCount).Ok? <==> |replies| >= replicaCount - ackCount + 1
    ensures SealOffset(Ends(replies), replicaCount, ackCount).Ok? ==>
              end.writer.confirm <= SealOffset(Ends(replies), replicaCount, ackCount).value
  {
    InitInv(md, n, ackCount);
    RunKeeps(Init(md, n), steps, md.start, ackCount, end);
    RunServers(Init(md, n), steps, ackCount, end);
    FewLowReplies(end, md.start, ackCount, replies);
    SealedDataIsHeld(Ends(replies), replicaCount, ackCount, end.writer.confirm);
  }

  lemma {:induction false} RunServers(k: Cluster, steps: seq<Step>, ackCount: nat, end: Cluster)
    requires Shape(k) && ackCount >= 1 && IsRun(k, steps, ackCount, end)
    ensures |end.servers| == |k.servers|
    decreases |steps|
  {
    if steps != [] {
      RunServers(Next(k, steps[0], ackCount), steps[1..], ackCount, end);
    }
  }

  /** In every run, a sealed offset was committed on a server that replied, where nothing beyond it was,
      or is no more than the range start of that server. */
  lemma {:induction false} SealedWasCommitted(md: RangeMetadata, n: nat, replicaCount: nat, ackCount: nat,
                                steps: seq<Step>, end: Cluster, replies: seq<(nat, nat)>) returns (i: nat)
    requires md.end.None? && 1 <= ackCount <= n && ackCount <= replicaCount
    requires IsRun(Init(md, n), steps, ackCount, end)
    requires forall i :: 0 <= i < |replies| ==> replies[i] in end.reports
    requires SealOffset(Ends(replies), replicaCount, ackCount).Ok?
    ensures i < |end.servers| == |end.oks| && exists r :: r in replies && r.0 == i
    ensures var sealed := SealOffset(Ends(replies), replicaCount, ackCount).value;
            && (sealed in end.oks[i] || sealed <= end.servers[i].metadata.start)
            && forall v :: v in end.oks[i] ==> v <= sealed
  {
    InitInv(md, n, ackCount);
    RunKeeps(Init(md, n), steps, md.start, ackCount, end);
    var sealed := SealOffset(Ends(replies), replicaCount, ackCount).value;
    SealedDataIsHeld(Ends(replies), replicaCount, ackCount, 0);
    var j :| 0 <= j < |replies| && Ends(replies)[j] == sealed;
    assert replies[j] in end.reports;
    var r :| 0 <= r < |end.reports| && end.reports[r] == replies[j];
    assert ReportInv(end, md.start, end.reports[r]);
    i := replies[j].0;
  }

  /** Every seal request is answered with what the server had committed, or its start. */
  lemma {:induction false} SealAnswered(k: Cluster, i: nat, request: RangeMetadata, ackCount: nat)
    requires Shape(k) && i < |k.servers| && ackCount >= 1
    ensures var r, k' := k.servers[i], Next(k, AtServer(i, SealWith(request)), ackCount);
            && k'.reports == k.reports + [(i, if r.committed.Some? then r.committed.value else r.metadata.start)]
            && k'.servers[i].window.None? && k'.writer == k.writer && k'.oks == k.oks
  {
  }

  // ---- What the writer confirms, from what it was told -------------------------------

  /** The replicas that are usable and have reached `c`. */
  ghost function AtLeast(confirms: seq<nat>, corrupted: seq<bool>, c: nat): (s: set<nat>)
    requires |corrupted| == |confirms|
  {
    set i | 0 <= i < |confirms| && !corrupted[i] && confirms[i] >= c
  }

  lemma {:induction false} FilterSnoc(confirms: seq<nat>, x: nat, corrupted: seq<bool>, b: bool)
    requires |corrupted| == |confirms|
    ensures Filter(confirms + [x], corrupted + [b]) == Filter(confirms, corrupted) + if b then [] else [x]
  {
    if confirms != [] {
      FilterSnoc(confirms[1..], x, corrupted[1..], b);
      assert (confirms + [x])[1..] == confirms[1..] + [x] && (corrupted + [b])[1..] == corrupted[1..] + [b];
    }
  }

  lemma {:induction false} AtLeastSnoc(confirms: seq<nat>, x: nat, corrupted: seq<bool>, b: bool, c: nat)
    requires |corrupted| == |confirms|
    ensures |AtLeast(confirms + [x], corrupted + [b], c)|
         == |AtLeast(confirms, corrupted, c)| + if !b && x >= c then 1 else 0
  {
    var n, all, bad := |confirms|, confirms + [x], corrupted + [b];
    var last := if !b && x >= c then {n} else {};
    assert forall i :: 0 <= i < n ==> all[i] == confirms[i] && bad[i] == corrupted[i];
    assert AtLeast(all, bad, c) == AtLeast(confirms, corrupted, c) + last;
  }

  lemma {:induction false} FilterReached(confirms: seq<nat>, corrupted: seq<bool>, c: nat)
    requires |corrupted| == |confirms|
    ensures var f := Filter(confirms, corrupted); |f| - CountBelow(f, c) == |AtLeast(confirms, corrupted, c)|
  {
    hide AtLeast;
    if confirms == [] {
      NoneAtLeast(c);
    } else {
      var n := |confirms| - 1;
      var x, b := confirms[n], corrupted[n];
      assert confirms == confirms[..n] + [x] && corrupted == corrupted[..n] + [b];
      FilterReached(confirms[..n], corrupted[..n], c);
      FilterSnoc(confirms[..n], x, corrupted[..n], b);
      AtLeastSnoc(confirms[..n], x, corrupted[..n], b, c);
      var front := Filter(confirms[..n], corrupted[..n]);
      CountSnoc(front, x, c);
      assert front + [] == front;
    }
  }

  lemma {:induction false} NoneAtLeast(c: nat)
    ensures |AtLeast([], [], c)| == 0
  {
  }

  /** After `try_ack` an offset is confirmed exactly if it was before, or the writer was confirming and
      `ackCount` usable replicas have reached it; the writer breaks exactly with fewer usable replicas. */
  lemma {:induction false} TryAckExact(w: Writer, ackCount: nat, c: nat)
    requires ackCount >= 1 && |w.corrupted| == |w.confirms|
    ensures var w' := w.TryAck(ackCount);
            && w'.confirms == w.confirms && w'.corrupted == w.corrupted && w'.sealing == w.sealing
            && (w'.broken <==> w.broken || (w.Writable() && |AtLeast(w.confirms, w.corrupted, 0)| < ackCount))
            && (c <= w'.confirm <==> c <= w.confirm || (w.Writable() && |AtLeast(w.confirms, w.corrupted, c)| >= ackCount))
  {
    hide AtLeast;
    var usable := w.Usable();
    FilterReached(w.confirms, w.corrupted, 0);
    NoneBelow(usable, 0);
    FilterReached(w.confirms, w.corrupted, c);
    ConfirmMeansAckCount(usable, ackCount, c);
    AtLeastFewer(w.confirms, w.corrupted, c);
  }

  lemma {:induction false} AtLeastFewer(confirms: seq<nat>, corrupted: seq<bool>, c: nat)
    requires |corrupted| == |confirms|
    ensures |AtLeast(confirms, corrupted, c)| <= |AtLeast(confirms, corrupted, 0)|
  {
    SubsetSize(AtLeast(confirms, corrupted, c), AtLeast(confirms, corrupted, 0));
  }

  /** Replica `i` acknowledged an append that ends at `c` or behind it. */
  ghost predicate AckedTo(past: seq<Step>, i: nat, c: nat) {
    exists v: nat :: c <= v && Acked(i, v) in past
  }

  /** The replicas that have not failed and have everything below `c`. */
  ghost function Confirming(past: seq<Step>, n: nat, start: nat, c: nat): (s: set<nat>) {
    set i | 0 <= i < n && Corrupt(i) !in past && (c <= start || AckedTo(past, i, c))
  }

  /** No seal is under way. */
  predicate Active(past: seq<Step>) {
    past == [] || match past[|past| - 1]
      case SealBegins => false
      case SealFails => true
      case _ => Active(past[..|past| - 1])
  }

  /** After `m` steps the writer looked at its replicas. */
  ghost predicate Looks(past: seq<Step>, m: nat)
    requires m <= |past|
  {
    && Active(past[..m])
    && (m == 0 || past[m - 1].Acked? || past[m - 1].Corrupt?)
  }

  /** At some point of the past, `ackCount` replicas had everything below `c`, and the writer looked. */
  ghost predicate ConfirmedIn(past: seq<Step>, n: nat, start: nat, ackCount: nat, c: nat) {
    exists m: nat :: m <= |past| && Looks(past, m) && |Confirming(past[..m], n, start, c)| >= ackCount
  }

  /** At some point of the past fewer than `ackCount` replicas were left, and the writer looked. */
  ghost predicate BrokenIn(past: seq<Step>, n: nat, start: nat, ackCount: nat) {
    exists m: nat :: m <= |past| && Looks(past, m) && |Confirming(past[..m], n, start, 0)| < ackCount
  }

  /** What the replicas and the seals have told the writer is what it remembers of them. */
  ghost predicate Remembers(w: Writer, past: seq<Step>, n: nat, start: nat) {
    && |w.confirms| == |w.corrupted| == n
    && (w.sealing <==> !Active(past))
    && (forall i :: 0 <= i < n ==> (w.corrupted[i] <==> Corrupt(i) in past))
    && forall i :: 0 <= i < n ==> Heard(w.confirms[i], past, i, start)
  }

  /** The largest end that was acknowledged, or the start. */
  ghost predicate Heard(confirm: nat, past: seq<Step>, i: nat, start: nat) {
    && start <= confirm && (confirm == start || Acked(i, confirm) in past)
    && forall v: nat :: Acked(i, v) in past ==> v <= confirm
  }

  ghost predicate History(w: Writer, past: seq<Step>, n: nat, start: nat, ackCount: nat) {
    && Remembers(w, past, n, start)
    && (w.broken <==> BrokenIn(past, n, start, ackCount))
    && forall c: nat :: c <= w.confirm <==> ConfirmedIn(past, n, start, ackCount, c)
  }

  lemma {:induction false} RememberedCount(w: Writer, past: seq<Step>, n: nat, start: nat, c: nat)
    requires Remembers(w, past, n, start)
    ensures AtLeast(w.confirms, w.corrupted, c) == Confirming(past, n, start, c)
  {
    forall i | 0 <= i < n
      ensures c <= w.confirms[i] <==> c <= start || AckedTo(past, i, c)
    {
      assert Heard(w.confirms[i], past, i, start);
    }
  }

  lemma {:induction false} ActiveSnoc(past: seq<Step>, s: Step)
    ensures Active(past + [s]) <==> s.SealFails? || (!s.SealBegins? && Active(past))
  {
    assert (past + [s])[..|past|] == past;
  }

  /** The writer before it looks at its replicas. */
  function Told(w: Writer, s: Step): Writer
    requires s.Acked? ==> s.replica < |w.confirms|
    requires s.Corrupt? ==> s.broken < |w.corrupted|
  {
    match s
    case AtServer(_, _) => w
    case Acked(i, v) => w.OnAck(i, v)
    case Corrupt(i) => w.(corrupted := w.corrupted[i := true])
    case SealBegins => w.(sealing := true)
    case SealFails => w.(sealing := false)
  }

  lemma {:induction false} ToldRemembers(w: Writer, past: seq<Step>, n: nat, start: nat, s: Step)
    requires Remembers(w, past, n, start)
    requires (s.Acked? ==> s.replica < n) && (s.Corrupt? ==> s.broken < n)
    ensures Remembers(Told(w, s), past + [s], n, start)
  {
    var w', now := Told(w, s), past + [s];
    ActiveSnoc(past, s);
    forall i | 0 <= i < n
      ensures Heard(w'.confirms[i], now, i, start)
    {
      assert Heard(w.confirms[i], past, i, start);
    }
  }

  lemma {:induction false} LooksSnoc(past: seq<Step>, s: Step, m: nat)
    requires m <= |past| + 1
    ensures Looks(past + [s], m)
       <==> if m <= |past| then Looks(past, m) else Active(past + [s]) && (s.Acked? || s.Corrupt?)
  {
    var now := past + [s];
    if m <= |past| {
      assert now[..m] == past[..m];
      assert m > 0 ==> now[m - 1] == past[m - 1];
    } else {
      assert now[..m] == now;
    }
  }

  lemma {:induction false} ConfirmedSnoc(past: seq<Step>, s: Step, n: nat, start: nat, ackCount: nat, c: nat)
    ensures ConfirmedIn(past + [s], n, start, ackCount, c)
       <==> || ConfirmedIn(past, n, start, ackCount, c)
            || (&& Active(past + [s]) && (s.Acked? || s.Corrupt?)
                && |Confirming(past + [s], n, start, c)| >= ackCount)
  {
    hide Looks, Confirming;
    var now := past + [s];
    assert now[..|past| + 1] == now;
    LooksSnoc(past, s, |past| + 1);
    if m: nat :| m <= |now| && Looks(now, m) && |Confirming(now[..m], n, start, c)| >= ackCount {
      LooksSnoc(past, s, m);
      assert m <= |past| ==> now[..m] == past[..m];
    }
    if m: nat :| m <= |past| && Looks(past, m) && |Confirming(past[..m], n, start, c)| >= ackCount {
      LooksSnoc(past, s, m);
      assert now[..m] == past[..m];
    }
  }

  lemma {:induction false} BrokenSnoc(past: seq<Step>, s: Step, n: nat, start: nat, ackCount: nat)
    ensures BrokenIn(past + [s], n, start, ackCount)
       <==> || BrokenIn(past, n, start, ackCount)
            || (&& Active(past + [s]) && (s.Acked? || s.Corrupt?)
                && |Confirming(past + [s], n, start, 0)| < ackCount)
  {
    hide Looks, Confirming;
    var now := past + [s];
    assert now[..|past| + 1] == now;
    LooksSnoc(past, s, |past| + 1);
    if m: nat :| m <= |now| && Looks(now, m) && |Confirming(now[..m], n, start, 0)| < ackCount {
      LooksSnoc(past, s, m);
      assert m <= |past| ==> now[..m] == past[..m];
    }
    if m: nat :| m <= |past| && Looks(past, m) && |Confirming(past[..m], n, start, 0)| < ackCount {
      LooksSnoc(past, s, m);
      assert now[..m] == past[..m];
    }
  }

  /** Once broken, there are never again `ackCount` replicas. */
  lemma {:induction false} BrokenStays(past: seq<Step>, n: nat, start: nat, ackCount: nat, c: nat)
    requires BrokenIn(past, n, start, ackCount)
    ensures |Confirming(past, n, start, c)| < ackCount
  {
    var m: nat :| m <= |past| && Looks(past, m) && |Confirming(past[..m], n, start, 0)| < ackCount;
    assert Confirming(past, n, start, c) <= Confirming(past[..m], n, start, 0) by {
      assert forall x :: x in past[..m] ==> x in past;
    }
    SubsetSize(Confirming(past, n, start, c), Confirming(past[..m], n, start, 0));
  }

  /** The writer after a step. */
  function Moved(w: Writer, s: Step, ackCount: nat): Writer
    requires ackCount >= 1 && |w.corrupted| == |w.confirms|
    requires s.Acked? ==> s.replica < |w.confirms|
    requires s.Corrupt? ==> s.broken < |w.corrupted|
  {
    if s.Acked? || s.Corrupt? then Told(w, s).TryAck(ackCount) else Told(w, s)
  }

  lemma {:induction false} MovedHistory(w: Writer, past: seq<Step>, n: nat, start: nat, ackCount: nat, s: Step)
    requires History(w, past, n, start, ackCount) && ackCount >= 1
    requires (s.Acked? ==> s.replica < n) && (s.Corrupt? ==> s.broken < n)
    ensures History(Moved(w, s, ackCount), past + [s], n, start, ackCount)
  {
    hide Remembers, AtLeast, ConfirmedIn, BrokenIn, Confirming, Active;
    assert |w.corrupted| == |w.confirms| == n by { RemembersShape(w, past, n, start); }
    var t, now, next := Told(w, s), past + [s], Moved(w, s, ackCount);
    ToldRemembers(w, past, n, start, s);
    RemembersShape(t, now, n, start);
    BrokenSnoc(past, s, n, start, ackCount);
    RememberedCount(t, now, n, start, 0);
    if s.Acked? || s.Corrupt? {
      TryAckExact(t, ackCount, 0);
      RemembersSame(t, next, now, n, start);
    }
    forall c: nat
      ensures c <= next.confirm <==> ConfirmedIn(now, n, start, ackCount, c)
    {
      ConfirmedSnoc(past, s, n, start, ackCount, c);
      RememberedCount(t, now, n, start, c);
      if s.Acked? || s.Corrupt? {
        TryAckExact(t, ackCount, c);
        if w.broken {
          BrokenStays(now, n, start, ackCount, c);
        }
      }
    }
  }

  lemma {:induction false} RemembersShape(w: Writer, past: seq<Step>, n: nat, start: nat)
    requires Remembers(w, past, n, start)
    ensures |w.corrupted| == |w.confirms| == n && (w.sealing <==> !Active(past))
  {
  }

  lemma {:induction false} RemembersSame(w: Writer, w': Writer, past: seq<Step>, n: nat, start: nat)
    requires Remembers(w, past, n, start)
    requires w'.confirms == w.confirms && w'.corrupted == w.corrupted && w'.sealing == w.sealing
    ensures Remembers(w', past, n, start)
  {
  }

  lemma {:induction false} NextMoves(k: Cluster, s: Step, ackCount: nat)
    requires Shape(k) && Enabled(k, s) && ackCount >= 1
    ensures Next(k, s, ackCount).writer == Moved(k.writer, s, ackCount)
  {
  }

  lemma {:induction false} RunHistory(k: Cluster, past: seq<Step>, steps: seq<Step>, n: nat, start: nat, ackCount: nat, end: Cluster)
    requires Shape(k) && |k.servers| == n && ackCount >= 1
    requires History(k.writer, past, n, start, ackCount) && IsRun(k, steps, ackCount, end)
    ensures History(end.writer, past + steps, n, start, ackCount)
    decreases |steps|
  {
    hide History, Next;
    if steps == [] {
      assert past + steps == past;
    } else {
      var next := Next(k, steps[0], ackCount);
      NextMoves(k, steps[0], ackCount);
      MovedHistory(k.writer, past, n, start, ackCount, steps[0]);
      NextServers(k, steps[0], ackCount);
      RunHistory(next, past + [steps[0]], steps[1..], n, start, ackCount, end);
      assert past + steps == (past + [steps[0]]) + steps[1..];
    }
  }

  lemma {:induction false} NextServers(k: Cluster, s: Step, ackCount: nat)
    requires Shape(k) && Enabled(k, s) && ackCount >= 1
    ensures |Next(k, s, ackCount).servers| == |k.servers|
  {
  }

  /** In every run with at least `ackCount` servers: an offset is confirmed exactly if at some point,
      with no seal under way, `ackCount` servers that had not failed had acknowledged everything below
      it; and the writer is broken exactly if at some such point fewer than `ackCount` were left. */
  lemma {:induction false} ConfirmedExactly(md: RangeMetadata, n: nat, ackCount: nat, steps: seq<Step>, end: Cluster, c: nat)
    requires 1 <= ackCount <= n && IsRun(Init(md, n), steps, ackCount, end)
    ensures c <= end.writer.confirm <==> ConfirmedIn(steps, n, md.start, ackCount, c)
    ensures end.writer.broken <==> BrokenIn(steps, n, md.start, ackCount)
    ensures end.writer.sealing <==> !Active(steps)
  {
    var k := Init(md, n);
    InitHistory(md, n, ackCount);
    RunHistory(k, [], steps, n, md.start, ackCount, end);
    assert [] + steps == steps;
  }

  lemma {:induction false} InitHistory(md: RangeMetadata, n: nat, ackCount: nat)
    requires 1 <= ackCount <= n
    ensures History(Init(md, n).writer, [], n, md.start, ackCount)
  {
    hide Confirming;
    var past: seq<Step> := [];
    assert past[..0] == [];
    assert Looks(past, 0);
    forall c: nat
      ensures c <= md.start <==> ConfirmedIn(past, n, md.start, ackCount, c)
    {
      AtFirst(n, md.start, c);
    }
    AtFirst(n, md.start, 0);
  }

  lemma {:induction false} AtFirst(n: nat, start: nat, c: nat)
    ensures |Confirming([], n, start, c)| == if c <= start then n else 0
  {
    if n > 0 {
      AtFirst(n - 1, start, c);
      assert Confirming([], n, start, c) == Confirming([], n - 1, start, c) + if c <= start then {n - 1} else {};
    }
  }
}
