/**
 The list-and-watch feed of the placement-driver client: what its event stream means for a
 consumer (components/pd-client/src/pd_client.rs, lib.rs).
 */
module ListWatch {
  import opened Prelude
  import opened ResourceModel

  // ---- The client -----------------------------------------------------------------

  /** An answer to a list or watch call. */
  datatype Response =
    | Page(resources: seq<Resource>, version: nat, continuation: Option<nat>)
    | Batch(events: seq<ResourceEvent>, newVersion: nat)
    | Timeout
    | Failure

  datatype ClientMode = Listing(continuation: Option<nat>) | Watching(version: nat)

  function ListedOf(rs: seq<Resource>): seq<ResourceEvent> {
    seq(|rs|, i requires 0 <= i < |rs| => ResourceEvent(Listed, rs[i]))
  }

  const RESET: ResourceEvent := ResourceEvent(Reset, NoResource)
  const LIST_FINISHED: ResourceEvent := ResourceEvent(ListFinished, NoResource)

  /** A list call is answered by pages, a watch call by batches. */
  predicate Fits(mode: ClientMode, r: Response) {
    match r
    case Page(_, _, _) => mode.Listing?
    case Batch(_, _) => mode.Watching?
    case _ => true
  }

  predicate AllFit(mode: ClientMode, script: seq<Response>)
    decreases |script|
  {
    script == [] || (Fits(mode, script[0]) && AllFit(Turn(mode, script[0]).0, script[1..]))
  }

  /** One call and its answer: the next mode and the events sent. */
  function Turn(mode: ClientMode, r: Response): (ClientMode, seq<ResourceEvent>) {
    match r
    case Page(rs, v, Some(c)) => (Listing(Some(c)), ListedOf(rs))
    case Page(rs, v, None) => (Watching(v), ListedOf(rs) + [LIST_FINISHED])
    case Batch(es, v) => (Watching(v), es)
    case Timeout => (mode, [])
    case Failure => (Listing(None), [RESET])
  }

  function Trace(mode: ClientMode, script: seq<Response>): seq<ResourceEvent>
    decreases |script|
  {
    if script == [] then [] else Turn(mode, script[0]).1 + Trace(Turn(mode, script[0]).0, script[1..])
  }

  /** Why a call loop ended: an error of the driver, a receiver that went away, or no answer left. */
  datatype ListError = Es | Cancelled | OutOfAnswers

  /** The client task: the answers still to come, and the events sent. The receiver goes away, or the
      task is cancelled, after `takes` events, if ever. */
  class Client {
    const takes: Option<nat>
    var script: seq<Response>
    var sent: seq<ResourceEvent>

    constructor (answers: seq<Response>, takes: Option<nat>)
      ensures this.takes == takes && script == answers && sent == [] && Valid()
    {
      this.takes := takes;
      script, sent := answers, [];
    }

    /** The receiver is there for `n` events. */
    predicate Room(n: nat) { takes.Some? ==> n <= takes.value }

    ghost predicate Valid()
      reads this
    {
      Room(|sent|)
    }

    /** The part of `goal` the receiver takes. */
    ghost function Cut(goal: seq<ResourceEvent>): seq<ResourceEvent> {
      if Room(|goal|) then goal else goal[..takes.value]
    }

    /** Send events in order while the receiver takes them. `rest` is what is to follow them to make up
        `goal`. */
    method Send(events: seq<ResourceEvent>, ghost rest: seq<ResourceEvent>, ghost goal: seq<ResourceEvent>)
      returns (ok: bool)
      requires Valid() && sent + (events + rest) == goal
      modifies this`sent
      ensures Valid()
      ensures ok ==> sent == old(sent) + events && sent + rest == goal
      ensures !ok ==> !Room(|goal|) && sent == Cut(goal)
    {
      var i := 0;
      while i < |events|
        invariant 0 <= i <= |events| && Valid()
        invariant sent == old(sent) + events[..i]
        invariant sent + (events[i..] + rest) == goal
      {
        if !Room(|sent| + 1) {
          return false;
        }
        assert events[i..] == [events[i]] + events[i + 1..];
        sent := sent + [events[i]];
        i := i + 1;
      }
      return true;
    }

    /** `list_resource`. What was sent and the trace of the answers left make up `goal`. */
    method ListResource(ghost goal: seq<ResourceEvent>) returns (r: Result<nat, ListError>)
      requires Valid() && AllFit(Listing(None), script) && sent + Trace(Listing(None), script) == goal
      modifies this
      ensures Valid()
      ensures r == Err(Cancelled) ==> !Room(|goal|) && sent == Cut(goal)
      ensures r == Err(OutOfAnswers) ==> script == [] && sent == goal
      ensures r == Err(Es) ==> && |script| < |old(script)| && AllFit(Listing(None), script)
                               && sent + ([RESET] + Trace(Listing(None), script)) == goal
      ensures r.Ok? ==> && |script| < |old(script)| && AllFit(Watching(r.value), script)
                        && sent + ([LIST_FINISHED] + Trace(Watching(r.value), script)) == goal
    {
      hide ListedOf;
      var continuation: Option<nat> := None;
      while true
        invariant Valid() && AllFit(Listing(continuation), script) && |script| <= |old(script)|
        invariant sent + Trace(Listing(continuation), script) == goal
        decreases |script|
      {
        if script == [] {
          return Err(OutOfAnswers);
        }
        var answer := script[0];
        ghost var after := Trace(Turn(Listing(continuation), answer).0, script[1..]);
        script := script[1..];
        match answer {
          case Page(resources, version, next) =>
            continuation := next;
            var listed := ListedOf(resources);
            if continuation.Some? {
              var ok := Send(listed, after, goal);
              if !ok {
                return Err(Cancelled);
              }
            } else {
              ConcatAssoc(listed, [LIST_FINISHED], after);
              var ok := Send(listed, [LIST_FINISHED] + after, goal);
              if !ok {
                return Err(Cancelled);
              }
              return Ok(version);
            }
          case Timeout =>
            assert [] + after == after;
          case Failure =>
            return Err(Es);
        }
      }
    }

    /** `watch_resource`; it ends only by an error, by cancellation or for want of answers. */
    method WatchResource(startVersion: nat, ghost goal: seq<ResourceEvent>) returns (r: ListError)
      requires Valid() && AllFit(Watching(startVersion), script) && sent + Trace(Watching(startVersion), script) == goal
      modifies this
      ensures Valid()
      ensures r == Cancelled ==> !Room(|goal|) && sent == Cut(goal)
      ensures r == OutOfAnswers ==> script == [] && sent == goal
      ensures r == Es ==> && |script| < |old(script)| && AllFit(Listing(None), script)
                          && sent + ([RESET] + Trace(Listing(None), script)) == goal
    {
      var version := startVersion;
      while true
        invariant Valid() && AllFit(Watching(version), script) && |script| <= |old(script)|
        invariant sent + Trace(Watching(version), script) == goal
        decreases |script|
      {
        if script == [] {
          return OutOfAnswers;
        }
        var answer := script[0];
        ghost var after := Trace(Turn(Watching(version), answer).0, script[1..]);
        script := script[1..];
        match answer {
          case Batch(events, newVersion) =>
            version := newVersion;
            var ok := Send(events, after, goal);
            if !ok {
              return Cancelled;
            }
          case Timeout =>
            assert [] + after == after;
          case Failure =>
            return Es;
        }
      }
    }

    /** The task of `list_and_watch_resource`: all answers are consumed and exactly their trace is sent,
        unless the receiver goes away, and then exactly what it took. */
    method ListAndWatch() returns (cancelled: bool)
      requires Valid() && AllFit(Listing(None), script)
      modifies this
      ensures var goal := old(sent) + Trace(Listing(None), old(script));
              && (cancelled <==> !Room(|goal|))
              && sent == Cut(goal)
              && (!cancelled ==> script == [])
    {
      ghost var goal := sent + Trace(Listing(None), script);
      while true
        invariant Valid() && AllFit(Listing(None), script) && sent + Trace(Listing(None), script) == goal
        decreases |script|
      {
        var listed := ListResource(goal);
        match listed {
          case Err(Cancelled) =>
            return true;
          case Err(OutOfAnswers) =>
            return false;
          case Err(Es) =>
          case Ok(version) =>
            var ok := Send([LIST_FINISHED], Trace(Watching(version), script), goal);
            if !ok {
              return true;
            }
            var ended := WatchResource(version, goal);
            if ended != Es {
              return ended == Cancelled;
            }
        }
        var ok := Send([RESET], Trace(Listing(None), script), goal);
        if !ok {
          return true;
        }
      }
    }
  }

  // ---- The placement driver -------------------------------------------------------

  datatype ResourceId =
    | ServerId(serverId: int)
    | StreamId(streamId: nat)
    | RangeKey(rangeStream: nat, rangeIndex: nat)
    | ObjectId(objectStream: nat, objectRange: nat, epoch: nat, startOffset: nat)
    | NoId

  function IdOf(r: Resource): ResourceId {
    match r
    case RangeServerResource(id) => ServerId(id)
    case StreamResource(s) => StreamId(s.streamId)
    case RangeResource(m) => RangeKey(m.streamId, m.index)
    case ObjectResource(o) => ObjectId(o.streamId, o.rangeIndex, o.epoch, o.startOffset)
    case NoResource => NoId
  }

  type Contents = map<ResourceId, Resource>

  /** What a consumer holds after an event. */
  function Absorb(m: Contents, e: ResourceEvent): Contents {
    match e.eventType
    case Listed | Added | Modified => m[IdOf(e.resource) := e.resource]
    case Deleted => m - {IdOf(e.resource)}
    case Reset => map[]
    case ListFinished | NoEvent => m
  }

  function Replay(m: Contents, es: seq<ResourceEvent>): Contents
    decreases |es|
  {
    if es == [] then m else Replay(Absorb(m, es[0]), es[1..])
  }

  /** The driver's history of changes; its state at version v is the first v of them replayed. */
  type History = seq<ResourceEvent>

  predicate IsHistory(log: History) {
    forall i :: 0 <= i < |log| ==> log[i].eventType in {Added, Modified, Deleted}
  }

  function StateAt(log: History, v: nat): Contents
    requires v <= |log|
  {
    Replay(map[], log[..v])
  }

  /** `order` lists the contents `m`, each resource once. */
  ghost predicate Enumerates(order: seq<Resource>, m: Contents) {
    && (forall i :: 0 <= i < |order| ==> IdOf(order[i]) in m && m[IdOf(order[i])] == order[i])
    && (forall i, j :: 0 <= i < j < |order| ==> IdOf(order[i]) != IdOf(order[j]))
    && (forall id :: id in m ==> exists i :: 0 <= i < |order| && IdOf(order[i]) == id)
  }

  /** What the driver does with a call. A listing works through one enumeration of the state at
      one version; a page says whether more may follow. */
  datatype Act =
    | GivePage(version: nat, order: seq<Resource>, from: nat, to: nat, more: bool)
    | GiveBatch(from: nat, to: nat)
    | TimeOut
    | Fail

  datatype Phase =
    | Fresh
    | Paging(version: nat, order: seq<Resource>, done: nat)
    | Following(version: nat, order: seq<Resource>, upTo: nat)

  /** The paging and version contract. */
  ghost predicate Allowed(log: History, phase: Phase, act: Act) {
    match act
    case GivePage(v, order, from, to, more) =>
      && from <= to <= |order| && (!more ==> to == |order|)
      && (match phase
          case Fresh => v <= |log| && Enumerates(order, StateAt(log, v)) && from == 0
          case Paging(v0, order0, done) => v == v0 && order == order0 && from == done
          case Following(_, _, _) => false)
    case GiveBatch(from, to) => phase.Following? && from == phase.upTo && from <= to <= |log|
    case TimeOut => true
    case Fail => true
  }

  function After(phase: Phase, act: Act): Phase {
    match act
    case GivePage(v, order, _, to, more) => if more then Paging(v, order, to) else Following(v, order, v)
    case GiveBatch(_, to) => if phase.Following? then phase.(upTo := to) else phase
    case TimeOut => phase
    case Fail => Fresh
  }

  function AnswerOf(log: History, act: Act): Response {
    match act
    case GivePage(v, order, from, to, more) =>
      Page(if from <= to <= |order| then order[from..to] else [], v, if more then Some(to) else None)
    case GiveBatch(from, to) => Batch(if from <= to <= |log| then log[from..to] else [], to)
    case TimeOut => Timeout
    case Fail => Failure
  }

  ghost predicate Contract(log: History, phase: Phase, acts: seq<Act>)
    decreases |acts|
  {
    acts == [] || (Allowed(log, phase, acts[0]) && Contract(log, After(phase, acts[0]), acts[1..]))
  }

  function AfterAll(phase: Phase, acts: seq<Act>): Phase
    decreases |acts|
  {
    if acts == [] then phase else AfterAll(After(phase, acts[0]), acts[1..])
  }

  function Answers(log: History, acts: seq<Act>): seq<Response> {
    seq(|acts|, i requires 0 <= i < |acts| => AnswerOf(log, acts[i]))
  }

  /** The client's mode in a phase. */
  function ModeOf(phase: Phase): ClientMode {
    match phase
    case Fresh => Listing(None)
    case Paging(_, _, done) => Listing(Some(done))
    case Following(_, _, upTo) => Watching(upTo)
  }

  // ---- What the trace says --------------------------------------------------------

  /** The events since the last reset. */
  function SinceReset(es: seq<ResourceEvent>): seq<ResourceEvent> {
    if es == [] then []
    else
      var last := es[|es| - 1];
      if last.eventType == Reset then [] else SinceReset(es[..|es| - 1]) + [last]
  }

  /** What the events of the current round must be. */
  function Round(log: History, phase: Phase): seq<ResourceEvent> {
    match phase
    case Fresh => []
    case Paging(_, order, done) => if done <= |order| then ListedOf(order[..done]) else []
    case Following(v, order, upTo) =>
      ListedOf(order) + [LIST_FINISHED] + if v <= upTo <= |log| then log[v..upTo] else []
  }

  ghost predicate PhaseOk(log: History, phase: Phase) {
    match phase
    case Fresh => true
    case Paging(v, order, done) => v <= |log| && done <= |order| && Enumerates(order, StateAt(log, v))
    case Following(v, order, upTo) => v <= upTo <= |log| && Enumerates(order, StateAt(log, v))
  }

  lemma {:induction false} SinceAppend(es: seq<ResourceEvent>, more: seq<ResourceEvent>)
    requires forall i :: 0 <= i < |more| ==> more[i].eventType != Reset
    ensures SinceReset(es + more) == SinceReset(es) + more
    decreases |more|
  {
    if more == [] {
      assert es + more == es;
    } else {
      var n := |more| - 1;
      SinceAppend(es, more[..n]);
      assert (es + more)[..|es + more| - 1] == es + more[..n];
      assert more == more[..n] + [more[n]];
    }
  }

  lemma {:induction false} ListedOfSplit(order: seq<Resource>, from: nat, to: nat)
    requires from <= to <= |order|
    ensures ListedOf(order[..from]) + ListedOf(order[from..to]) == ListedOf(order[..to])
  {
  }

  lemma {:induction false} LogSplit(log: History, v: nat, from: nat, to: nat)
    requires v <= from <= to <= |log|
    ensures log[v..from] + log[from..to] == log[v..to]
  {
  }

  lemma {:induction false} TurnFits(log: History, phase: Phase, act: Act)
    requires Allowed(log, phase, act)
    ensures Fits(ModeOf(phase), AnswerOf(log, act)) && Turn(ModeOf(phase), AnswerOf(log, act)).0 == ModeOf(After(phase, act))
  {
  }

  lemma {:induction false} PageStarts(log: History, phase: Phase, act: Act)
    requires PhaseOk(log, phase) && Allowed(log, phase, act) && act.GivePage?
    ensures Round(log, phase) == ListedOf(act.order[..act.from])
  {
  }

  lemma {:induction false} PageAppends(order: seq<Resource>, from: nat, to: nat, past: seq<ResourceEvent>)
    requires from <= to <= |order| && SinceReset(past) == ListedOf(order[..from])
    ensures SinceReset(past + ListedOf(order[from..to])) == ListedOf(order[..to])
    ensures SinceReset(past + (ListedOf(order[from..to]) + [LIST_FINISHED])) == ListedOf(order[..to]) + [LIST_FINISHED]
  {
    var listed := ListedOf(order[from..to]);
    SinceAppend(past, listed);
    ListedOfSplit(order, from, to);
    SinceAppend(past + listed, [LIST_FINISHED]);
    assert past + (listed + [LIST_FINISHED]) == (past + listed) + [LIST_FINISHED];
  }

  lemma {:induction false} PageStep(log: History, phase: Phase, act: Act, past: seq<ResourceEvent>)
    requires PhaseOk(log, phase) && Allowed(log, phase, act) && act.GivePage?
    requires SinceReset(past) == Round(log, phase)
    ensures SinceReset(past + Turn(ModeOf(phase), AnswerOf(log, act)).1) == Round(log, After(phase, act))
  {
    PageStarts(log, phase, act);
    PageAppends(act.order, act.from, act.to, past);
    if !act.more {
      assert act.order[..act.to] == act.order;
      RoundAtListed(log, act.version, act.order);
    }
  }

  lemma {:induction false} RoundAtListed(log: History, v: nat, order: seq<Resource>)
    requires v <= |log|
    ensures Round(log, Following(v, order, v)) == ListedOf(order) + [LIST_FINISHED]
  {
    assert log[v..v] == [];
  }

  lemma {:induction false} BatchStep(log: History, phase: Phase, act: Act, past: seq<ResourceEvent>)
    requires IsHistory(log) && PhaseOk(log, phase) && Allowed(log, phase, act) && act.GiveBatch?
    requires SinceReset(past) == Round(log, phase)
    ensures SinceReset(past + Turn(ModeOf(phase), AnswerOf(log, act)).1) == Round(log, After(phase, act))
  {
    var sent := log[act.from..act.to];
    assert forall i :: 0 <= i < |sent| ==> sent[i] == log[act.from + i];
    SinceAppend(past, sent);
    LogSplit(log, phase.version, act.from, act.to);
    var head := ListedOf(phase.order) + [LIST_FINISHED];
    assert (head + log[phase.version..act.from]) + sent == head + (log[phase.version..act.from] + sent);
  }

  /** One act extends the round as the contract says. */
  lemma {:induction false} RoundStep(log: History, phase: Phase, act: Act, past: seq<ResourceEvent>)
    requires IsHistory(log) && PhaseOk(log, phase) && Allowed(log, phase, act)
    requires SinceReset(past) == Round(log, phase)
    ensures PhaseOk(log, After(phase, act))
    ensures SinceReset(past + Turn(ModeOf(phase), AnswerOf(log, act)).1) == Round(log, After(phase, act))
  {
    match act {
      case GivePage(_, _, _, _, _) => PageStep(log, phase, act, past);
      case GiveBatch(_, _) => BatchStep(log, phase, act, past);
      case TimeOut => assert past + [] == past;
      case Fail =>
    }
  }

  lemma {:induction false} TraceCons(log: History, phase: Phase, acts: seq<Act>, past: seq<ResourceEvent>)
    requires acts != [] && Allowed(log, phase, acts[0])
    ensures var sent := Turn(ModeOf(phase), AnswerOf(log, acts[0])).1;
            && Answers(log, acts)[1..] == Answers(log, acts[1..])
            && past + Trace(ModeOf(phase), Answers(log, acts))
               == past + sent + Trace(ModeOf(After(phase, acts[0])), Answers(log, acts[1..]))
  {
    TurnFits(log, phase, acts[0]);
    assert Answers(log, acts)[1..] == Answers(log, acts[1..]);
    var sent := Turn(ModeOf(phase), AnswerOf(log, acts[0])).1;
    var rest := Trace(ModeOf(After(phase, acts[0])), Answers(log, acts[1..]));
    assert (past + sent) + rest == past + (sent + rest);
  }

  /** Over every run the contract allows, the events since the last reset are exactly: the
      enumerated resources listed so far, each once; after the listing also ListFinished and the
      changes from the listed version to the version the watch has reached. */
  lemma {:induction false} TraceIsRound(log: History, phase: Phase, acts: seq<Act>, past: seq<ResourceEvent>)
    requires IsHistory(log) && PhaseOk(log, phase) && Contract(log, phase, acts)
    requires SinceReset(past) == Round(log, phase)
    ensures AllFit(ModeOf(phase), Answers(log, acts))
    ensures PhaseOk(log, AfterAll(phase, acts))
    ensures SinceReset(past + Trace(ModeOf(phase), Answers(log, acts))) == Round(log, AfterAll(phase, acts))
    decreases |acts|
  {
    if acts == [] {
      assert past + [] == past;
    } else {
      TurnFits(log, phase, acts[0]);
      RoundStep(log, phase, acts[0], past);
      var sent := Turn(ModeOf(phase), AnswerOf(log, acts[0])).1;
      TraceIsRound(log, After(phase, acts[0]), acts[1..], past + sent);
      TraceCons(log, phase, acts, past);
    }
  }

  // ---- Replaying the trace --------------------------------------------------------

  lemma {:induction false} ReplayConcat(m: Contents, a: seq<ResourceEvent>, b: seq<ResourceEvent>)
    ensures Replay(m, a + b) == Replay(Replay(m, a), b)
    decreases |a|
  {
    if a == [] {
      assert a + b == b;
    } else {
      assert (a + b)[1..] == a[1..] + b;
      ReplayConcat(Absorb(m, a[0]), a[1..], b);
    }
  }

  /** A consumer that clears at Reset holds the replay of the events since the last one. */
  lemma {:induction false} ReplaySinceReset(es: seq<ResourceEvent>)
    ensures Replay(map[], es) == Replay(map[], SinceReset(es))
    decreases |es|
  {
    if es != [] {
      var n := |es| - 1;
      var last := [es[n]];
      assert es == es[..n] + last;
      ReplaySinceReset(es[..n]);
      ReplayConcat(map[], es[..n], last);
      ReplayConcat(map[], SinceReset(es[..n]), last);
      ReplayOne(Replay(map[], es[..n]), es[n]);
    }
  }

  lemma {:induction false} ReplayOne(m: Contents, e: ResourceEvent)
    ensures Replay(m, [e]) == Absorb(m, e)
  {
  }

  /** Change `i` is the last one about the resource, of the first `v`. */
  ghost predicate LastChange(log: History, v: nat, id: ResourceId, i: int) {
    && 0 <= i < v <= |log| && IdOf(log[i].resource) == id
    && forall j :: i < j < v ==> IdOf(log[j].resource) != id
  }

  /** The driver's state holds a resource exactly if the last change about it is not its deletion, and
      holds what that change says. */
  lemma {:induction false} StateIsLastChange(log: History, v: nat, id: ResourceId)
    requires IsHistory(log) && v <= |log|
    ensures id in StateAt(log, v) <==> exists i :: LastChange(log, v, id, i) && log[i].eventType != Deleted
    ensures forall i :: LastChange(log, v, id, i) && log[i].eventType != Deleted ==>
                          id in StateAt(log, v) && StateAt(log, v)[id] == log[i].resource
  {
    if v > 0 {
      var e := log[v - 1];
      StateIsLastChange(log, v - 1, id);
      assert log[..v] == log[..v - 1] + [e];
      ReplayConcat(map[], log[..v - 1], [e]);
      ReplayOne(StateAt(log, v - 1), e);
      forall i
        ensures LastChange(log, v, id, i) <==> if IdOf(e.resource) == id then i == v - 1 else LastChange(log, v - 1, id, i)
      {
      }
      assert IdOf(e.resource) == id ==> LastChange(log, v, id, v - 1);
    }
  }

  lemma {:induction false} ReplayListed(order: seq<Resource>, n: nat)
    requires n <= |order|
    requires forall i, j :: 0 <= i < j < |order| ==> IdOf(order[i]) != IdOf(order[j])
    ensures var m := Replay(map[], ListedOf(order[..n]));
            && (forall i :: 0 <= i < n ==> IdOf(order[i]) in m && m[IdOf(order[i])] == order[i])
            && (forall id :: id in m ==> exists i :: 0 <= i < n && IdOf(order[i]) == id)
  {
    if n > 0 {
      ReplayListed(order, n - 1);
      var before := ListedOf(order[..n - 1]);
      var e := ResourceEvent(Listed, order[n - 1]);
      assert ListedOf(order[..n]) == before + [e];
      ReplayConcat(map[], before, [e]);
      ReplayOne(Replay(map[], before), e);
    }
  }

  lemma {:induction false} EnumerationReplays(order: seq<Resource>, m: Contents)
    requires Enumerates(order, m)
    ensures Replay(map[], ListedOf(order)) == m
  {
    ReplayListed(order, |order|);
    assert order[..|order|] == order;
    var r := Replay(map[], ListedOf(order));
    forall id | id in r
      ensures id in m && m[id] == r[id]
    {
      var i :| 0 <= i < |order| && IdOf(order[i]) == id;
    }
    forall id | id in m
      ensures id in r
    {
      var i :| 0 <= i < |order| && IdOf(order[i]) == id;
      assert IdOf(order[i]) in r;
    }
  }

  lemma {:induction false} RoundReplays(log: History, phase: Phase)
    requires PhaseOk(log, phase) && phase.Following?
    ensures Replay(map[], Round(log, phase)) == StateAt(log, phase.upTo)
  {
    var v := phase.version;
    var listed := ListedOf(phase.order);
    EnumerationReplays(phase.order, StateAt(log, v));
    ReplayConcat(map[], listed, [LIST_FINISHED]);
    ReplayOne(Replay(map[], listed), LIST_FINISHED);
    ReplayConcat(map[], listed + [LIST_FINISHED], log[v..phase.upTo]);
    ReplayConcat(map[], log[..v], log[v..phase.upTo]);
    assert log[..v] + log[v..phase.upTo] == log[..phase.upTo];
  }

  /** Replaying the trace gives the driver's state at the listed version once the listing has
      finished, and at the reached version after each watch batch, whatever timeouts, failures and
      restarts came before. */
  lemma {:induction false} ReplayMatchesDriver(log: History, acts: seq<Act>)
    requires IsHistory(log) && Contract(log, Fresh, acts)
    ensures var phase := AfterAll(Fresh, acts);
            phase.Following? ==>
              && phase.upTo <= |log|
              && Replay(map[], Trace(Listing(None), Answers(log, acts))) == StateAt(log, phase.upTo)
  {
    TraceIsRound(log, Fresh, acts, []);
    var trace := Trace(Listing(None), Answers(log, acts));
    assert [] + trace == trace;
    ReplaySinceReset(trace);
    var phase := AfterAll(Fresh, acts);
    if phase.Following? {
      RoundReplays(log, phase);
    }
  }

  /** Timeouts neither lose nor repeat an event. */
  lemma {:induction false} TimeoutsAreInvisible(mode: ClientMode, script: seq<Response>)
    ensures Trace(mode, script) == Trace(mode, WithoutTimeouts(script))
    decreases |script|
  {
    if script != [] {
      var (next, sent) := Turn(mode, script[0]);
      TimeoutsAreInvisible(next, script[1..]);
      if script[0].Timeout? {
        assert WithoutTimeouts(script) == WithoutTimeouts(script[1..]);
        assert sent + Trace(next, script[1..]) == Trace(next, script[1..]);
      } else {
        var rest := WithoutTimeouts(script[1..]);
        assert ([script[0]] + rest)[1..] == rest;
      }
    }
  }

  function WithoutTimeouts(script: seq<Response>): seq<Response> {
    if script == [] then []
    else (if script[0].Timeout? then [] else [script[0]]) + WithoutTimeouts(script[1..])
  }

  // ---- The grammar of the trace ---------------------------------------------------

  /** Rounds of `Listed* Reset` or `Listed* ListFinished change* Reset`, the last one possibly
      unfinished. `watching` says whether ListFinished was seen in the current round. */
  predicate InRounds(es: seq<ResourceEvent>, watching: bool)
    decreases |es|
  {
    es == [] || (match es[0].eventType
                 case Listed => !watching && InRounds(es[1..], false)
                 case ListFinished => !watching && InRounds(es[1..], true)
                 case Added | Modified | Deleted => watching && InRounds(es[1..], true)
                 case Reset => InRounds(es[1..], false)
                 case NoEvent => false)
  }

  lemma {:induction false} ListedInRounds(rs: seq<Resource>, rest: seq<ResourceEvent>)
    requires InRounds(rest, false)
    ensures InRounds(ListedOf(rs) + rest, false)
    decreases |rs|
  {
    if rs == [] {
      assert ListedOf(rs) + rest == rest;
    } else {
      ListedInRounds(rs[1..], rest);
      assert (ListedOf(rs) + rest)[1..] == ListedOf(rs[1..]) + rest;
    }
  }

  lemma {:induction false} ChangesInRounds(es: seq<ResourceEvent>, rest: seq<ResourceEvent>)
    requires InRounds(rest, true) && IsHistory(es)
    ensures InRounds(es + rest, true)
    decreases |es|
  {
    if es == [] {
      assert es + rest == rest;
    } else {
      assert es[0].eventType in {Added, Modified, Deleted};
      ChangesInRounds(es[1..], rest);
      assert (es + rest)[1..] == es[1..] + rest;
    }
  }

  /** Every trace is made of such rounds, provided watch answers hold only changes. */
  lemma {:induction false} TraceInRounds(mode: ClientMode, script: seq<Response>)
    requires AllFit(mode, script)
    requires forall i :: 0 <= i < |script| && script[i].Batch? ==> IsHistory(script[i].events)
    ensures InRounds(Trace(mode, script), mode.Watching?)
    decreases |script|
  {
    if script != [] {
      var (next, sent) := Turn(mode, script[0]);
      var rest := Trace(next, script[1..]);
      TraceInRounds(next, script[1..]);
      match script[0] {
        case Page(rs, v, c) =>
          if c.Some? {
            ListedInRounds(rs, rest);
          } else {
            assert ([LIST_FINISHED] + rest)[1..] == rest;
            ListedInRounds(rs, [LIST_FINISHED] + rest);
            assert sent + rest == ListedOf(rs) + ([LIST_FINISHED] + rest);
          }
        case Batch(es, _) => ChangesInRounds(es, rest);
        case Timeout => assert sent + rest == rest;
        case Failure => assert ([RESET] + rest)[1..] == rest;
      }
    }
  }
}
