/** The whole path of an event through analytics/src/analytics/core: calls of `ingest_event` (vms_client.py), the queue
    and the retry loop (outbox.py) and the callback that replays (vms_client.py), interleaved at every await.

    The system contains the state machine of the retry loop, so everything proved there holds here. On top of it stand
    the calls, each at the point it has reached, and what has left the edge: the requests on the wire with the answers
    they got, and the clip jobs. Every answer in a run comes from one of the client's own two paths. */
module ClientRuns {
  import opened Options
  import opened Outboxes
  import L = RetryLoop
  import Draining
  import Deliveries
  import RetryPasses
  import opened VmsClients

  // ---------- The system ----------

  /** Where a call of `ingest_event` is. A throttled call carries the wait along. */
  datatype Stage =
    | ToStore(wait: Option<int>)
    | ToPrune(wait: Option<int>)
    | ToDefer(seconds: int)
    | Finished(verdict: Verdict)
    | Died

  /** One call: its event, and the id of the row once one is written. */
  datatype Call = Call(event: Event, row: Option<int>, stage: Stage)

  /** A request on the wire for the event of a call, the answer that arrived, and whether the server stored the event
      whatever the answer. */
  datatype Sending = Sending(call: nat, request: Request, response: Response, stored: bool)

  datatype Clip = Clip(call: nat, job: ClipJob)

  /** `origin` says which call wrote a row; no code reads it. */
  datatype State = State(
    loop: L.State<Fields>, calls: seq<Call>, origin: map<int, nat>, wire: seq<Sending>, clips: seq<Clip>)

  datatype Setup = Setup(edge: bool, base: string, cfg: L.Config)

  /** `Ingest` is a call up to its answer; `Store`, `PruneAfter` and `Defer` are its outbox transactions, `Fault` one
      of them failing. `Replay` is the callback's answer for the item the loop offers. `Loop` is any other step of the
      retry loop or of the process. A request that is in flight when the process dies is one whose answer never arrives,
      followed by the restart. */
  datatype Step =
    | Ingest(event: Event, x: Exchange, now: real)
    | Store(call: nat, now: real)
    | PruneAfter(call: nat, now: real)
    | Defer(call: nat, now: real)
    | Fault(call: nat, now: real)
    | Replay(x: Exchange, now: real)
    | Loop(step: L.Step<Fields>)

  function Now(step: Step): real {
    if step.Loop? then step.step.now else step.now
  }

  predicate OfTheLoop(step: L.Step<Fields>) {
    step.StartPass? || step.Settle? || step.SettleFails? || step.DrainCount? || step.Restart? || step.Tick?
  }

  function PayloadOf(ev: Event, su: Setup): Fields {
    MakePayload(ev, su.edge, su.base)
  }

  predicate Unfinished(c: Call) {
    c.stage.ToStore? || c.stage.ToPrune? || c.stage.ToDefer?
  }

  predicate Enabled(s: State, step: Step) {
    match step
    case Ingest(_, _, _) => true
    case Store(n, _) => n < |s.calls| && s.calls[n].stage.ToStore?
    case PruneAfter(n, _) => n < |s.calls| && s.calls[n].stage.ToPrune?
    case Defer(n, _) => n < |s.calls| && s.calls[n].stage.ToDefer?
    case Fault(n, _) => n < |s.calls| && Unfinished(s.calls[n])
    case Replay(_, _) => s.loop.phase.Sending? && s.loop.phase.left != []
    case Loop(st) => OfTheLoop(st) && L.Enabled(s.loop, st)
  }

  /** What the step is for the outbox and the retry loop. */
  function LoopStep(s: State, step: Step, su: Setup): L.Step<Fields>
    requires Enabled(s, step)
  {
    match step
    case Ingest(_, _, now) => L.Tick(now)
    case Store(n, now) => L.Insert(PayloadOf(s.calls[n].event, su), now)
    case PruneAfter(_, now) => L.Prune(now)
    case Defer(n, now) => L.DeferAll(s.calls[n].stage.seconds, now)
    case Fault(_, now) => L.Tick(now)
    case Replay(x, now) => L.Answer(L.Full(ReplayOutcome(s.loop.phase.left[0].payload, x)), now)
    case Loop(st) => st
  }

  function AnsweredStage(x: Exchange): Stage {
    match Classify(x.response)
    case Sent(_) => Finished(Returned(true))
    case Rejected => Finished(Returned(false))
    case Crashed => Finished(Raised)
    case Retryable => ToStore(None)
    case Throttle(seconds) => ToStore(Some(seconds))
  }

  function PrunedStage(stage: Stage): Stage
    requires stage.ToPrune?
  {
    if stage.wait.Some? then ToDefer(stage.wait.value) else Finished(Returned(true))
  }

  function Killed(calls: seq<Call>): (r: seq<Call>)
    ensures |r| == |calls|
  {
    seq(|calls|, i requires 0 <= i < |calls| =>
      if Unfinished(calls[i]) then calls[i].(stage := Died) else calls[i])
  }

  function SentFor(wire: seq<Sending>, n: nat, request: Option<Request>, x: Exchange): seq<Sending> {
    if request.Some? then wire + [Sending(n, request.value, x.response, x.stored)] else wire
  }

  function ClippedFor(clips: seq<Clip>, n: nat, job: Option<ClipJob>): seq<Clip> {
    if job.Some? then clips + [Clip(n, job.value)] else clips
  }

  /** The call that wrote the row of the item being offered. */
  function OfferedCall(s: State): nat
    requires s.loop.phase.Sending? && s.loop.phase.left != []
  {
    var id := s.loop.phase.left[0].id;
    if id in s.origin then s.origin[id] else 0
  }

  function NextCalls(s: State, step: Step): seq<Call>
    requires Enabled(s, step)
  {
    match step
    case Ingest(ev, x, _) => s.calls + [Call(ev, None, AnsweredStage(x))]
    case Store(n, _) => s.calls[n := Call(s.calls[n].event, Some(s.loop.nextId), ToPrune(s.calls[n].stage.wait))]
    case PruneAfter(n, _) => s.calls[n := s.calls[n].(stage := PrunedStage(s.calls[n].stage))]
    case Defer(n, _) => s.calls[n := s.calls[n].(stage := Finished(Returned(true)))]
    case Fault(n, _) => s.calls[n := s.calls[n].(stage := Finished(Returned(false)))]
    case Replay(_, _) => s.calls
    case Loop(st) => if st.Restart? then Killed(s.calls) else s.calls
  }

  function NextWire(s: State, step: Step, su: Setup): seq<Sending>
    requires Enabled(s, step)
  {
    match step
    case Ingest(ev, x, _) => SentFor(s.wire, |s.calls|, IngestRequest(ev, su.edge, su.base, x), x)
    case Replay(x, _) => SentFor(s.wire, OfferedCall(s), ReplayRequest(s.loop.phase.left[0].payload, x), x)
    case _ => s.wire
  }

  function NextClips(s: State, step: Step, su: Setup): seq<Clip>
    requires Enabled(s, step)
  {
    match step
    case Ingest(ev, x, _) => ClippedFor(s.clips, |s.calls|, IngestClip(ev, su.edge, su.base, x))
    case Replay(x, _) => ClippedFor(s.clips, OfferedCall(s), ReplayClip(s.loop.phase.left[0].payload, su.edge, x))
    case _ => s.clips
  }

  function Next(s: State, step: Step, su: Setup): State
    requires Enabled(s, step)
  {
    State(
      L.Next(s.loop, LoopStep(s, step, su), su.cfg),
      NextCalls(s, step),
      if step.Store? then s.origin[s.loop.nextId := step.call] else s.origin,
      NextWire(s, step, su),
      NextClips(s, step, su))
  }

  function Initial(now: real): State {
    State(L.Initial(now), [], map[], [], [])
  }

  ghost predicate IsRun(states: seq<State>, steps: seq<Step>, su: Setup) {
    && |states| == |steps| + 1
    && states[0] == Initial(states[0].loop.clock)
    && forall i :: 0 <= i < |steps| ==> Enabled(states[i], steps[i]) && states[i + 1] == Next(states[i], steps[i], su)
  }

  // ---------- Every run contains a run of the retry loop ----------

  ghost function LoopStates(states: seq<State>): (r: seq<L.State<Fields>>)
    ensures |r| == |states|
  {
    seq(|states|, i requires 0 <= i < |states| => states[i].loop)
  }

  ghost function LoopSteps(states: seq<State>, steps: seq<Step>, su: Setup): (r: seq<L.Step<Fields>>)
    requires IsRun(states, steps, su)
    ensures |r| == |steps|
  {
    seq(|steps|, i requires 0 <= i < |steps| => LoopStep(states[i], steps[i], su))
  }

  /** What the outbox and the loop go through is a run of the state machine of the retry loop: all its theorems apply.
      */
  lemma ClientRunIsALoopRun(states: seq<State>, steps: seq<Step>, su: Setup)
    requires IsRun(states, steps, su)
    ensures L.IsRun(LoopStates(states), LoopSteps(states, steps, su), su.cfg)
  {
  }

  // ---------- Rows and the calls that wrote them ----------

  /** Every row carries the payload of exactly the call that wrote it. */
  ghost predicate Linked(s: State, su: Setup) {
    LinkedBy(s.loop.queued, s.calls, s.origin, su)
  }

  ghost predicate LinkedBy(queued: map<int, Fields>, calls: seq<Call>, origin: map<int, nat>, su: Setup) {
    && (forall id :: id in queued ==>
          id in origin && origin[id] < |calls| && calls[origin[id]].row == Some(id)
          && queued[id] == PayloadOf(calls[origin[id]].event, su))
    && (forall n :: 0 <= n < |calls| ==> calls[n].row.Some? ==>
          calls[n].row.value in queued && origin[calls[n].row.value] == n)
    && (forall n :: 0 <= n < |calls| ==> RowFitsStage(calls[n]))
  }

  /** Before the insert there is no row, after it there is one. */
  predicate RowFitsStage(c: Call) {
    && (c.stage.ToStore? ==> c.row.None?)
    && (c.stage.ToPrune? || c.stage.ToDefer? ==> c.row.Some?)
  }

  /** What a step does to the loop's books: only a store queues an event, only a replay confirms one. */
  lemma BooksChange(s: State, step: Step, su: Setup)
    requires Enabled(s, step)
    ensures Next(s, step, su).loop.queued
         == if step.Store? then s.loop.queued[s.loop.nextId := PayloadOf(s.calls[step.call].event, su)]
            else s.loop.queued
    ensures !step.Replay? ==> Next(s, step, su).loop.confirmations == s.loop.confirmations
  {
    if step.Loop? {
      LoopKeepsBooks(s.loop, step.step, su.cfg);
    }
  }

  lemma LoopKeepsBooks(s: L.State<Fields>, step: L.Step<Fields>, cfg: L.Config)
    requires L.Enabled(s, step) && OfTheLoop(step)
    ensures L.Next(s, step, cfg).queued == s.queued && L.Next(s, step, cfg).confirmations == s.confirmations
  {
  }

  lemma ReplayConfirms(s: State, step: Step, su: Setup)
    requires Enabled(s, step) && step.Replay?
    ensures var item := s.loop.phase.left[0];
            Next(s, step, su).loop.confirmations
            == s.loop.confirmations
               + if ReplayOutcome(item.payload, step.x).delivered then multiset{item.id} else multiset{}
  {
  }

  /** Calls move on without touching their events and rows. */
  lemma CallsMoveOn(s: State, step: Step, su: Setup)
    requires Linked(s, su) && Enabled(s, step) && !step.Store? && !step.Ingest?
    ensures |NextCalls(s, step)| == |s.calls|
    ensures forall n :: 0 <= n < |s.calls| ==>
              var c, d := s.calls[n], NextCalls(s, step)[n];
              d.event == c.event && d.row == c.row && RowFitsStage(d)
              && (c.row.None? ==>
                    (d.stage == Finished(Returned(true)) <==> c.stage == Finished(Returned(true))))
  {
  }

  lemma StoreKeepsLinked(s: State, step: Step, su: Setup)
    requires L.Inv(s.loop) && Linked(s, su) && Enabled(s, step) && step.Store?
    ensures Linked(Next(s, step, su), su)
  {
    BooksChange(s, step, su);
    StoreLinks(s.loop.queued, s.calls, s.origin, su, step.call, s.loop.nextId);
  }

  lemma StoreLinks(queued: map<int, Fields>, calls: seq<Call>, origin: map<int, nat>, su: Setup, n: nat, id: int)
    requires LinkedBy(queued, calls, origin, su) && id !in queued && n < |calls| && calls[n].stage.ToStore?
    ensures LinkedBy(queued[id := PayloadOf(calls[n].event, su)],
                     calls[n := Call(calls[n].event, Some(id), ToPrune(calls[n].stage.wait))], origin[id := n], su)
  {
    assert RowFitsStage(calls[n]);
  }

  lemma OtherKeepsLinked(s: State, step: Step, su: Setup)
    requires Linked(s, su) && Enabled(s, step) && !step.Store?
    ensures Linked(Next(s, step, su), su)
  {
    BooksChange(s, step, su);
    var calls := NextCalls(s, step);
    if !step.Ingest? {
      CallsMoveOn(s, step, su);
      SameRowsLinked(s.loop.queued, s.calls, calls, s.origin, su);
    }
  }

  lemma SameRowsLinked(queued: map<int, Fields>, calls: seq<Call>, moved: seq<Call>, origin: map<int, nat>, su: Setup)
    requires LinkedBy(queued, calls, origin, su) && |moved| == |calls|
    requires forall n :: 0 <= n < |calls| ==>
               moved[n].event == calls[n].event && moved[n].row == calls[n].row && RowFitsStage(moved[n])
    ensures LinkedBy(queued, moved, origin, su)
  {
  }

  /** The item the loop offers is the queued form of the event of the call that wrote its row. */
  lemma OfferedIsItsCall(s: State, su: Setup)
    requires L.Inv(s.loop) && Linked(s, su) && s.loop.phase.Sending? && s.loop.phase.left != []
    ensures var id, n := s.loop.phase.left[0].id, OfferedCall(s);
            id in s.origin && n == s.origin[id] && n < |s.calls| && s.calls[n].row == Some(id)
            && s.loop.phase.left[0].payload == PayloadOf(s.calls[n].event, su)
  {
    assert L.Genuine(s.loop, L.Left(s.loop.phase)[0]);
  }

  // ---------- What leaves the edge is the event's own ----------

  /** A body that tells the server this event, and no other file than the event's own snapshot. */
  predicate OwnRequest(r: Request, ev: Event, su: Setup) {
    && Tells(r.body, ev, su.edge)
    && (r.attachment.Some? ==>
          HasSnapshot(ev, su.edge) && r.attachment.value == su.base + "/" + ev.snapshotPath.value)
  }

  /** The event's own snapshot and clip context. */
  predicate OwnClip(job: ClipJob, ev: Event, su: Setup) {
    && HasSnapshot(ev, su.edge) && job.localSnapshot == su.base + "/" + ev.snapshotPath.value
    && job.mediamtxPath == (if ev.mediamtxPath.Some? then Text(ev.mediamtxPath.value) else Null)
    && job.occurredAt == (if ev.occurredAt.Some? then Text(ev.occurredAt.value) else Null)
  }

  ghost predicate WireIsOwn(s: State, su: Setup) {
    forall i :: 0 <= i < |s.wire| ==>
      s.wire[i].call < |s.calls| && OwnRequest(s.wire[i].request, s.calls[s.wire[i].call].event, su)
  }

  lemma EventsStay(s: State, step: Step, su: Setup)
    requires Enabled(s, step)
    ensures |s.calls| <= |Next(s, step, su).calls|
    ensures forall n :: 0 <= n < |s.calls| ==> Next(s, step, su).calls[n].event == s.calls[n].event
  {
  }

  lemma AttemptKeepsWireOwn(s: State, step: Step, su: Setup, n: nat, ev: Event, x: Exchange)
    requires WireIsOwn(s, su) && Enabled(s, step)
    requires n < |NextCalls(s, step)| && NextCalls(s, step)[n].event == ev
    requires NextWire(s, step, su) == SentFor(s.wire, n, IngestRequest(ev, su.edge, su.base, x), x)
    ensures WireIsOwn(Next(s, step, su), su)
  {
    EventsStay(s, step, su);
    IngestSendsItsEvent(ev, su.edge, su.base, x);
  }

  lemma StepKeepsWireOwn(s: State, step: Step, su: Setup)
    requires L.Inv(s.loop) && Linked(s, su) && WireIsOwn(s, su) && Enabled(s, step)
    ensures WireIsOwn(Next(s, step, su), su)
  {
    if step.Ingest? {
      AttemptKeepsWireOwn(s, step, su, |s.calls|, step.event, step.x);
    } else if step.Replay? {
      OfferedIsItsCall(s, su);
      var n := OfferedCall(s);
      ReplayFidelity(s.calls[n].event, su.edge, su.base, step.x);
      AttemptKeepsWireOwn(s, step, su, n, s.calls[n].event, step.x);
    } else {
      EventsStay(s, step, su);
    }
  }

  // ---------- Clips follow confirmations ----------

  /** A confirmed answer for the event of call `n`. */
  predicate Confirms(w: Sending, n: nat) {
    w.call == n && Classify(w.response).Sent?
  }

  /** A confirmed answer for that call with that event id. */
  predicate ConfirmsAs(w: Sending, n: nat, eventId: string) {
    Confirms(w, n) && Accepted(w.response) && w.response.decoded == Identified(eventId)
  }

  ghost predicate HasConfirmation(wire: seq<Sending>, n: nat, eventId: string) {
    exists i :: 0 <= i < |wire| && ConfirmsAs(wire[i], n, eventId)
  }

  ghost predicate ClipsAreOwn(s: State, su: Setup) {
    forall i :: 0 <= i < |s.clips| ==>
      && s.clips[i].call < |s.calls|
      && OwnClip(s.clips[i].job, s.calls[s.clips[i].call].event, su)
      && HasConfirmation(s.wire, s.clips[i].call, s.clips[i].job.eventId)
  }

  lemma ConfirmationStays(wire: seq<Sending>, more: seq<Sending>, n: nat, eventId: string)
    requires HasConfirmation(wire, n, eventId)
    ensures HasConfirmation(wire + more, n, eventId)
  {
    var i :| 0 <= i < |wire| && ConfirmsAs(wire[i], n, eventId);
    assert (wire + more)[i] == wire[i];
  }

  /** A clip job that an exchange leads to belongs to the event, and the exchange confirmed it under that id. */
  lemma ClipIsOwn(ev: Event, su: Setup, x: Exchange, n: nat)
    requires IngestClip(ev, su.edge, su.base, x).Some?
    ensures var job, request := IngestClip(ev, su.edge, su.base, x).value, IngestRequest(ev, su.edge, su.base, x);
            OwnClip(job, ev, su) && request.Some?
            && ConfirmsAs(Sending(n, request.value, x.response, x.stored), n, job.eventId)
  {
    IngestSendsItsEvent(ev, su.edge, su.base, x);
  }

  lemma AttemptKeepsClipsOwn(s: State, step: Step, su: Setup, n: nat, ev: Event, x: Exchange)
    requires ClipsAreOwn(s, su) && Enabled(s, step)
    requires n < |NextCalls(s, step)| && NextCalls(s, step)[n].event == ev
    requires NextWire(s, step, su) == SentFor(s.wire, n, IngestRequest(ev, su.edge, su.base, x), x)
    requires NextClips(s, step, su) == ClippedFor(s.clips, n, IngestClip(ev, su.edge, su.base, x))
    ensures ClipsAreOwn(Next(s, step, su), su)
  {
    var t := Next(s, step, su);
    EventsStay(s, step, su);
    forall i | 0 <= i < |t.clips|
      ensures && t.clips[i].call < |t.calls|
              && OwnClip(t.clips[i].job, t.calls[t.clips[i].call].event, su)
              && HasConfirmation(t.wire, t.clips[i].call, t.clips[i].job.eventId)
    {
      if i < |s.clips| {
        assert t.clips[i] == s.clips[i];
        ConfirmationStays(s.wire, t.wire[|s.wire|..], t.clips[i].call, t.clips[i].job.eventId);
        assert t.wire == s.wire + t.wire[|s.wire|..];
      } else {
        ClipIsOwn(ev, su, x, n);
        assert ConfirmsAs(t.wire[|s.wire|], n, t.clips[i].job.eventId);
      }
    }
  }

  lemma StepKeepsClipsOwn(s: State, step: Step, su: Setup)
    requires L.Inv(s.loop) && Linked(s, su) && ClipsAreOwn(s, su) && Enabled(s, step)
    ensures ClipsAreOwn(Next(s, step, su), su)
  {
    if step.Ingest? {
      AttemptKeepsClipsOwn(s, step, su, |s.calls|, step.event, step.x);
    } else if step.Replay? {
      ReplayKeepsClipsOwn(s, step, su);
    } else {
      EventsStay(s, step, su);
    }
  }

  lemma ReplayKeepsClipsOwn(s: State, step: Step, su: Setup)
    requires L.Inv(s.loop) && Linked(s, su) && ClipsAreOwn(s, su) && Enabled(s, step) && step.Replay?
    ensures ClipsAreOwn(Next(s, step, su), su)
  {
    OfferedIsItsCall(s, su);
    var n := OfferedCall(s);
    ReplayFidelity(s.calls[n].event, su.edge, su.base, step.x);
    AttemptKeepsClipsOwn(s, step, su, n, s.calls[n].event, step.x);
  }

  // ---------- Exactly what every step sends ----------

  /** One attempt for the event of call `n`: a request on the wire unless it is never made, with the event's body and,
      while its file exists, its snapshot; and a clip job exactly when the event has a snapshot, the server accepts it
      with an id, and the pool takes the job. */
  ghost predicate Attempted(s: State, t: State, n: nat, ev: Event, x: Exchange, su: Setup) {
    && (if x.response.LocalError? then t.wire == s.wire
        else
          && |t.wire| == |s.wire| + 1 && s.wire <= t.wire
          && var w := t.wire[|s.wire|];
             && w.call == n && w.response == x.response && w.stored == x.stored && OwnRequest(w.request, ev, su)
             && (w.request.attachment.Some? <==> HasSnapshot(ev, su.edge) && x.fileExists))
    && (if HasSnapshot(ev, su.edge) && Accepted(x.response) && x.response.decoded.Identified?
           && x.response.decoded.eventId != "" && x.poolTakesJob
        then
          && |t.clips| == |s.clips| + 1 && s.clips <= t.clips
          && t.clips[|s.clips|].call == n && OwnClip(t.clips[|s.clips|].job, ev, su)
          && t.clips[|s.clips|].job.eventId == x.response.decoded.eventId
        else t.clips == s.clips)
  }

  lemma AttemptIsAttempted(s: State, t: State, n: nat, ev: Event, x: Exchange, su: Setup)
    requires t.wire == SentFor(s.wire, n, IngestRequest(ev, su.edge, su.base, x), x)
    requires t.clips == ClippedFor(s.clips, n, IngestClip(ev, su.edge, su.base, x))
    ensures Attempted(s, t, n, ev, x, su)
  {
    IngestSendsItsEvent(ev, su.edge, su.base, x);
  }

  /** In every reachable state: a call sends its own event, a replay sends the event of the call that wrote the row
      being offered, and no other step sends anything. */
  lemma EveryStepSendsExactly(s: State, step: Step, su: Setup)
    requires L.Inv(s.loop) && Linked(s, su) && Enabled(s, step)
    ensures var t := Next(s, step, su);
            match step
            case Ingest(ev, x, _) => Attempted(s, t, |s.calls|, ev, x, su)
            case Replay(x, _) =>
              exists n :: 0 <= n < |s.calls| && s.calls[n].row == Some(s.loop.phase.left[0].id)
                          && Attempted(s, t, n, s.calls[n].event, x, su)
            case _ => t.wire == s.wire && t.clips == s.clips
  {
    if step.Ingest? {
      IngestStep(s, step.event, step.x, step.now, su);
      AttemptIsAttempted(s, Next(s, step, su), |s.calls|, step.event, step.x, su);
    } else if step.Replay? {
      OfferedIsItsCall(s, su);
      var n := OfferedCall(s);
      ReplayFidelity(s.calls[n].event, su.edge, su.base, step.x);
      AttemptIsAttempted(s, Next(s, step, su), n, s.calls[n].event, step.x, su);
    }
  }

  /** A replay that the server throttles for `w` seconds ends the pass, and once that is settled every row is put off to
      the end of the wait and no attempt is counted. */
  lemma ThrottledReplaySilences(s: State, x: Exchange, now: real, later: real, su: Setup)
    requires L.Inv(s.loop) && Linked(s, su) && Enabled(s, Replay(x, now))
    requires x.response.Status? && x.response.code == 429
    requires x.response.retryAfter.Finite? && 1.0 <= x.response.retryAfter.value < 901.0
    ensures var t := Next(s, Replay(x, now), su);
            Enabled(t, Loop(L.Settle(later)))
            && var u := Next(t, Loop(L.Settle(later)), su);
               u.loop.phase.Asleep?
               && AllPutOff(s.loop.rows, u.loop.rows, later + x.response.retryAfter.value.Floor as real)
  {
    OfferedIsItsCall(s, su);
    var payload, w := s.loop.phase.left[0].payload, x.response.retryAfter.value.Floor;
    ReplayReports(payload, x);
    L.AnsweredWaitIsHonoured(s.loop, w, now, later, su.cfg);
    assert LoopStep(s, Replay(x, now), su) == L.Answer(L.Full(L.SendOutcome(false, Some(w))), now);
  }

  /** A restart ends every call under way, and leaves the finished ones and what is known of all of them as it is. */
  lemma RestartEndsEveryCall(s: State, now: real, su: Setup)
    ensures var calls := Next(s, Loop(L.Restart(now)), su).calls;
            |calls| == |s.calls|
            && forall n :: 0 <= n < |calls| ==>
                 && calls[n].event == s.calls[n].event && calls[n].row == s.calls[n].row
                 && calls[n].stage == (if s.calls[n].stage.Finished? then s.calls[n].stage else Died)
  {
  }

  /** A throttled call carries the server's wait, and its deferral puts every row off to the end of it. */
  lemma ThrottledCallDefers(s: State, ev: Event, x: Exchange, n: nat, w: int, now: real, su: Setup)
    ensures x.response.Status? && x.response.code == 429 && x.response.retryAfter.Finite?
            && 1.0 <= x.response.retryAfter.value < 901.0 ==>
              var t := Next(s, Ingest(ev, x, now), su);
              t.calls == s.calls + [Call(ev, None, ToStore(Some(x.response.retryAfter.value.Floor)))]
    ensures n < |s.calls| && s.calls[n].stage == ToPrune(Some(w)) ==>
              Next(s, PruneAfter(n, now), su).calls[n].stage == ToDefer(w)
    ensures n < |s.calls| && s.calls[n].stage == ToDefer(w) && w >= 1 ==>
              AllPutOff(s.loop.rows, Next(s, Defer(n, now), su).loop.rows, now + w as real)
  {
    IngestStep(s, ev, x, now, su);
    if x.response.Status? {
      RetryAfterIsClamped(x.response.retryAfter);
    }
  }

  // ---------- Counting ----------

  /** How often the server has confirmed the event of call `n`. */
  function Confirmations(wire: seq<Sending>, n: nat): nat {
    if wire == [] then 0
    else Confirmations(wire[..|wire| - 1], n) + if Confirms(wire[|wire| - 1], n) then 1 else 0
  }

  /** How many clip jobs there are for it. */
  function Clips(clips: seq<Clip>, n: nat): nat {
    if clips == [] then 0
    else Clips(clips[..|clips| - 1], n) + if clips[|clips| - 1].call == n then 1 else 0
  }

  lemma OneMoreSending(wire: seq<Sending>, w: Sending, n: nat)
    ensures Confirmations(wire + [w], n) == Confirmations(wire, n) + if Confirms(w, n) then 1 else 0
  {
    assert (wire + [w])[..|wire|] == wire;
  }

  lemma OneMoreClip(clips: seq<Clip>, c: Clip, n: nat)
    ensures Clips(clips + [c], n) == Clips(clips, n) + if c.call == n then 1 else 0
  {
    assert (clips + [c])[..|clips|] == clips;
  }

  /** One attempt for the event of call `m` adds a confirmation for it exactly when the answer is one, and a clip job
      only then. */
  lemma AttemptCounts(s: State, m: nat, ev: Event, su: Setup, x: Exchange, n: nat)
    ensures var wire := SentFor(s.wire, m, IngestRequest(ev, su.edge, su.base, x), x);
            var clips := ClippedFor(s.clips, m, IngestClip(ev, su.edge, su.base, x));
            && Confirmations(wire, n)
               == Confirmations(s.wire, n) + (if m == n && Classify(x.response).Sent? then 1 else 0)
            && Clips(clips, n) <= Clips(s.clips, n) + Confirmations(wire, n) - Confirmations(s.wire, n)
  {
    var request, job := IngestRequest(ev, su.edge, su.base, x), IngestClip(ev, su.edge, su.base, x);
    if request.Some? {
      OneMoreSending(s.wire, Sending(m, request.value, x.response, x.stored), n);
    }
    if job.Some? {
      OneMoreClip(s.clips, Clip(m, job.value), n);
    }
  }

  /** The confirmations on the wire are those the loop has on its books; a call that wrote no row has one exactly when
      it returned `True`. And clip jobs never outnumber them. */
  ghost predicate Counted(s: State, n: nat) {
    && Clips(s.clips, n) <= Confirmations(s.wire, n)
    && (n < |s.calls| ==> Confirmations(s.wire, n) == OnTheBooks(s, n))
    && (n >= |s.calls| ==> Confirmations(s.wire, n) == 0)
  }

  function OnTheBooks(s: State, n: nat): nat
    requires n < |s.calls|
  {
    match s.calls[n].row
    case Some(id) => s.loop.confirmations[id]
    case None => if s.calls[n].stage == Finished(Returned(true)) then 1 else 0
  }

  lemma IngestKeepsCount(s: State, step: Step, su: Setup, n: nat)
    requires Linked(s, su) && Counted(s, n) && step.Ingest?
    ensures Counted(Next(s, step, su), n)
  {
    IngestStep(s, step.event, step.x, step.now, su);
    AttemptCounts(s, |s.calls|, step.event, su, step.x, n);
    IngestOnTheBooks(s, Next(s, step, su), step.event, step.x, n);
  }

  lemma IngestOnTheBooks(s: State, t: State, ev: Event, x: Exchange, n: nat)
    requires t.calls == s.calls + [Call(ev, None, AnsweredStage(x))]
    requires t.loop.confirmations == s.loop.confirmations
    ensures n < |s.calls| ==> OnTheBooks(t, n) == OnTheBooks(s, n)
    ensures n == |s.calls| ==> OnTheBooks(t, n) == if Classify(x.response).Sent? then 1 else 0
  {
  }

  lemma ReplayKeepsCount(s: State, step: Step, su: Setup, n: nat)
    requires L.Inv(s.loop) && Linked(s, su) && Counted(s, n) && Enabled(s, step) && step.Replay?
    ensures Counted(Next(s, step, su), n)
  {
    OfferedIsItsCall(s, su);
    var m := OfferedCall(s);
    ReplayFidelity(s.calls[m].event, su.edge, su.base, step.x);
    AttemptCounts(s, m, s.calls[m].event, su, step.x, n);
    ReplayOnTheBooks(s, step, su, m, n);
  }

  lemma ReplayOnTheBooks(s: State, step: Step, su: Setup, m: nat, n: nat)
    requires Linked(s, su) && Enabled(s, step) && step.Replay?
    requires m < |s.calls| && s.calls[m].row == Some(s.loop.phase.left[0].id)
    requires ReplayOutcome(s.loop.phase.left[0].payload, step.x).delivered <==> Classify(step.x.response).Sent?
    ensures n < |s.calls| ==>
              OnTheBooks(Next(s, step, su), n)
              == OnTheBooks(s, n) + if m == n && Classify(step.x.response).Sent? then 1 else 0
  {
    ReplayConfirms(s, step, su);
    if n != m && n < |s.calls| {
      OtherRow(s, su, m, n);
    }
  }

  lemma OtherRow(s: State, su: Setup, m: nat, n: nat)
    requires Linked(s, su) && m < |s.calls| && n < |s.calls| && m != n && s.calls[m].row.Some?
    ensures s.calls[n].row != s.calls[m].row
  {
  }

  lemma StoreKeepsCount(s: State, step: Step, su: Setup, n: nat)
    requires L.Inv(s.loop) && Linked(s, su) && Counted(s, n) && Enabled(s, step) && step.Store?
    ensures Counted(Next(s, step, su), n)
  {
    BooksChange(s, step, su);
    assert s.loop.nextId !in s.loop.confirmed;
    assert s.loop.confirmations[s.loop.nextId] == 0;
  }

  lemma StepKeepsCount(s: State, step: Step, su: Setup, n: nat)
    requires L.Inv(s.loop) && Linked(s, su) && Counted(s, n) && Enabled(s, step)
    ensures Counted(Next(s, step, su), n)
  {
    if step.Ingest? {
      IngestKeepsCount(s, step, su, n);
    } else if step.Replay? {
      ReplayKeepsCount(s, step, su, n);
    } else if step.Store? {
      StoreKeepsCount(s, step, su, n);
    } else {
      BooksChange(s, step, su);
      CallsMoveOn(s, step, su);
    }
  }

  // ---------- Over every run ----------

  ghost predicate Inv(s: State, su: Setup) {
    L.Inv(s.loop) && Linked(s, su) && WireIsOwn(s, su) && ClipsAreOwn(s, su) && forall n: nat :: Counted(s, n)
  }

  lemma StepKeepsInv(s: State, step: Step, su: Setup)
    requires Inv(s, su) && Enabled(s, step)
    ensures Inv(Next(s, step, su), su)
  {
    L.StepKeepsInv(s.loop, LoopStep(s, step, su), su.cfg);
    if step.Store? {
      StoreKeepsLinked(s, step, su);
    } else {
      OtherKeepsLinked(s, step, su);
    }
    StepKeepsWireOwn(s, step, su);
    StepKeepsClipsOwn(s, step, su);
    forall n: nat ensures Counted(Next(s, step, su), n) {
      StepKeepsCount(s, step, su, n);
    }
  }

  lemma {:induction false} RunKeepsInv(states: seq<State>, steps: seq<Step>, su: Setup, k: nat)
    requires IsRun(states, steps, su) && k <= |steps|
    ensures Inv(states[k], su)
  {
    if k > 0 {
      RunKeepsInv(states, steps, su, k - 1);
      StepKeepsInv(states[k - 1], steps[k - 1], su);
    }
  }

  /** Replay fidelity: in every run, every request ever sent for an event, at once or from the queue, carries that
      event's own body and no file but that event's own snapshot. */
  lemma RequestsCarryTheirOwnEvent(states: seq<State>, steps: seq<Step>, su: Setup, k: nat, i: nat)
    requires IsRun(states, steps, su) && k <= |steps| && i < |states[k].wire|
    ensures var w := states[k].wire[i];
            w.call < |states[k].calls| && OwnRequest(w.request, states[k].calls[w.call].event, su)
  {
    RunKeepsInv(states, steps, su, k);
  }

  /** In every run, every clip job carries its own event's snapshot and clip context, and the server has confirmed that
      event under the id the job names. */
  lemma ClipsFollowConfirmation(states: seq<State>, steps: seq<Step>, su: Setup, k: nat, i: nat)
    requires IsRun(states, steps, su) && k <= |steps| && i < |states[k].clips|
    ensures var c := states[k].clips[i];
            && c.call < |states[k].calls| && OwnClip(c.job, states[k].calls[c.call].event, su)
            && HasConfirmation(states[k].wire, c.call, c.job.eventId)
  {
    RunKeepsInv(states, steps, su, k);
  }

  /** In every run an event has at most as many clip jobs as confirmations; without a row there is at most one of those,
      and with one there is at most one more than the loop lost removals of that row. */
  lemma ClipsNeverOutnumberConfirmations(states: seq<State>, steps: seq<Step>, su: Setup, k: nat, n: nat)
    requires IsRun(states, steps, su) && k <= |steps| && n < |states[k].calls|
    ensures var s := states[k];
            && Clips(s.clips, n) <= Confirmations(s.wire, n)
            && Confirmations(s.wire, n)
               <= 1 + if s.calls[n].row.Some? then s.loop.interruptions[s.calls[n].row.value] else 0
  {
    RunKeepsInv(states, steps, su, k);
    var s := states[k];
    assert Counted(s, n);
    if s.calls[n].row.Some? {
      ClientRunIsALoopRun(states, steps, su);
      Deliveries.ConfirmedOncePlusInterruptions(
        LoopStates(states), LoopSteps(states, steps, su), su.cfg, k, s.calls[n].row.value);
    }
  }

  /** The server stored the event of call `n` at this sending. */
  predicate Takes(w: Sending, n: nat) {
    w.call == n && Taken(w.response, w.stored)
  }

  /** How often the server has stored the event of call `n`, and how often without the edge learning of it: the answer
      was lost, replaced on its way, or could not be decoded. */
  function Takings(wire: seq<Sending>, n: nat): nat {
    if wire == [] then 0
    else Takings(wire[..|wire| - 1], n) + if Takes(wire[|wire| - 1], n) then 1 else 0
  }

  function Unacknowledged(wire: seq<Sending>, n: nat): nat {
    if wire == [] then 0
    else
      var w := wire[|wire| - 1];
      Unacknowledged(wire[..|wire| - 1], n) + if Takes(w, n) && !Classify(w.response).Sent? then 1 else 0
  }

  lemma {:induction false} TakingsSplit(wire: seq<Sending>, n: nat)
    ensures Takings(wire, n) == Confirmations(wire, n) + Unacknowledged(wire, n)
  {
    if wire != [] {
      TakingsSplit(wire[..|wire| - 1], n);
    }
  }

  /** The event of call `n` is yet to be put on the wire from the queue, for the first time or again: its row is, or is
      about to be written. */
  predicate MayBeSent(s: State, n: nat)
    requires n < |s.calls|
  {
    match s.calls[n].row
    case Some(id) => Deliveries.Awaits(s.loop, id)
    case None => s.calls[n].stage.ToStore?
  }

  /** What the server sees: in every run it stores an event at most once, plus once for every lost removal of its row,
      plus once for every time it stored the event without the edge learning of it; and once less while the event is
      yet to be sent. */
  lemma ServerTakesAtMost(states: seq<State>, steps: seq<Step>, su: Setup, k: nat, n: nat)
    requires IsRun(states, steps, su) && k <= |steps| && n < |states[k].calls|
    ensures var s := states[k];
            Takings(s.wire, n)
            <= Unacknowledged(s.wire, n)
               + (if s.calls[n].row.Some? then s.loop.interruptions[s.calls[n].row.value] else 0)
               + (if MayBeSent(s, n) then 0 else 1)
  {
    RunKeepsInv(states, steps, su, k);
    var s := states[k];
    assert Counted(s, n);
    TakingsSplit(s.wire, n);
    if s.calls[n].row.Some? {
      ClientRunIsALoopRun(states, steps, su);
      Deliveries.ConfirmedOncePlusInterruptions(
        LoopStates(states), LoopSteps(states, steps, su), su.cfg, k, s.calls[n].row.value);
      ConfirmedOrNot(s, su, s.calls[n].row.value);
    }
  }

  lemma ConfirmedOrNot(s: State, su: Setup, id: int)
    requires Inv(s, su)
    ensures id in s.loop.confirmed <==> s.loop.confirmations[id] > 0
  {
  }

  /** What `True` is worth: in every run, an event whose call returned `True`, or for which a row was written at all,
      has been confirmed by the server, or is in the table with its own payload, or was discarded by a cap. */
  lemma EventsArrive(states: seq<State>, steps: seq<Step>, su: Setup, k: nat, n: nat)
    requires IsRun(states, steps, su) && k <= |steps| && n < |states[k].calls|
    requires states[k].calls[n].stage == Finished(Returned(true)) || states[k].calls[n].row.Some?
    ensures var s := states[k];
            || Confirmations(s.wire, n) >= 1
            || (s.calls[n].row.Some?
                && (s.calls[n].row.value in s.loop.pruned
                    || exists i :: 0 <= i < |s.loop.rows| && s.loop.rows[i].id == s.calls[n].row.value
                                   && s.loop.rows[i].payload == PayloadOf(s.calls[n].event, su)))
  {
    RunKeepsInv(states, steps, su, k);
    var s := states[k];
    assert Counted(s, n);
    if s.calls[n].row.Some? {
      ClientRunIsALoopRun(states, steps, su);
      L.NoSilentLoss(LoopStates(states), LoopSteps(states, steps, su), su.cfg, k, s.calls[n].row.value);
    }
  }

  // ---------- Stored again, exactly when ----------

  function After(s: State, steps: seq<Step>, su: Setup): Option<State>
    decreases |steps|
  {
    if steps == [] then Some(s)
    else if Enabled(s, steps[0]) then After(Next(s, steps[0], su), steps[1..], su)
    else None
  }

  lemma AfterFirst(s: State, step: Step, rest: seq<Step>, su: Setup)
    requires Enabled(s, step)
    ensures After(s, [step] + rest, su) == After(Next(s, step, su), rest, su)
  {
    assert ([step] + rest)[1..] == rest;
  }

  lemma AfterOne(s: State, step: Step, su: Setup)
    requires Enabled(s, step)
    ensures After(s, [step], su) == Some(Next(s, step, su))
  {
    assert [step][1..] == [];
  }

  /** The step keeps the loop from removing the row of call `n` that it holds the confirmation of. */
  predicate InterruptsCall(s: State, step: Step, n: nat, su: Setup)
    requires Enabled(s, step)
  {
    n < |s.calls| && s.calls[n].row.Some?
    && Deliveries.Interrupts(s.loop, LoopStep(s, step, su), s.calls[n].row.value)
  }

  ghost predicate Uninterrupted(s: State, steps: seq<Step>, n: nat, su: Setup)
    decreases |steps|
  {
    steps == []
    || (Enabled(s, steps[0]) && !InterruptsCall(s, steps[0], n, su)
        && Uninterrupted(Next(s, steps[0], su), steps[1..], n, su))
  }

  /** Along these steps the server stores the event of call `n` once more. */
  ghost predicate TakesMore(s: State, steps: seq<Step>, n: nat, su: Setup) {
    After(s, steps, su).Some? && Takings(After(s, steps, su).value.wire, n) > Takings(s.wire, n)
  }

  lemma SentMore(wire: seq<Sending>, m: nat, request: Option<Request>, x: Exchange, n: nat)
    ensures Takings(SentFor(wire, m, request, x), n)
         == Takings(wire, n) + if m == n && request.Some? && Taken(x.response, x.stored) then 1 else 0
  {
    if request.Some? {
      assert (wire + [Sending(m, request.value, x.response, x.stored)])[..|wire|] == wire;
    }
  }

  /** What is not to be sent stays unsent, and off the wire, through any step that does not interrupt. */
  lemma UnsentStaysUnsent(s: State, step: Step, n: nat, su: Setup)
    requires Inv(s, su) && Enabled(s, step) && n < |s.calls|
    requires !MayBeSent(s, n) && !InterruptsCall(s, step, n, su)
    ensures |s.calls| <= |Next(s, step, su).calls| && !MayBeSent(Next(s, step, su), n)
    ensures Takings(Next(s, step, su).wire, n) == Takings(s.wire, n)
  {
    RowStays(s, step, n, su);
    if s.calls[n].row.Some? {
      Deliveries.AwaitsExactlyByInterruption(s.loop, LoopStep(s, step, su), su.cfg, s.calls[n].row.value);
    }
    WireStays(s, step, n, su);
  }

  lemma RowStays(s: State, step: Step, n: nat, su: Setup)
    requires Linked(s, su) && Enabled(s, step) && n < |s.calls| && (s.calls[n].row.None? ==> !s.calls[n].stage.ToStore?)
    ensures var d := NextCalls(s, step)[n];
            d.row == s.calls[n].row && (d.row.None? ==> !d.stage.ToStore?)
  {
    assert RowFitsStage(s.calls[n]);
  }

  lemma WireStays(s: State, step: Step, n: nat, su: Setup)
    requires Inv(s, su) && Enabled(s, step) && n < |s.calls| && !MayBeSent(s, n)
    ensures Takings(NextWire(s, step, su), n) == Takings(s.wire, n)
  {
    match step
    case Ingest(ev, x, _) =>
      SentMore(s.wire, |s.calls|, IngestRequest(ev, su.edge, su.base, x), x, n);
    case Replay(x, _) =>
      OfferedIsItsCall(s, su);
      assert s.loop.phase.left[0].id in RetryPasses.IdsOf(s.loop.phase.left);
      SentMore(s.wire, OfferedCall(s), ReplayRequest(s.loop.phase.left[0].payload, x), x, n);
    case _ =>
  }

  lemma {:induction false} NothingMoreIsTaken(s: State, steps: seq<Step>, n: nat, su: Setup)
    requires Inv(s, su) && n < |s.calls| && !MayBeSent(s, n)
    requires Uninterrupted(s, steps, n, su) && After(s, steps, su).Some?
    ensures Takings(After(s, steps, su).value.wire, n) == Takings(s.wire, n)
    decreases |steps|
  {
    if steps != [] {
      UnsentStaysUnsent(s, steps[0], n, su);
      StepKeepsInv(s, steps[0], su);
      NothingMoreIsTaken(Next(s, steps[0], su), steps[1..], n, su);
    }
  }

  /** A success with nothing in its body. */
  const PLAIN_SUCCESS := Exchange(false, Status(200, Unparsable, Anonymous), false, true)

  /** The client's step for a step of a smooth pass. */
  function Lifted(step: L.Step<Fields>): Step {
    if step.Answer? then Replay(PLAIN_SUCCESS, step.now) else Loop(step)
  }

  lemma LiftedStep(s: State, step: L.Step<Fields>, n: nat, su: Setup)
    requires Inv(s, su) && L.Enabled(s.loop, step) && Deliveries.Smooth([step])
    ensures Enabled(s, Lifted(step)) && Next(s, Lifted(step), su).loop == L.Next(s.loop, step, su.cfg)
    ensures Next(s, Lifted(step), su).calls == s.calls && Next(s, Lifted(step), su).origin == s.origin
    ensures !InterruptsCall(s, Lifted(step), n, su)
    ensures Takings(Next(s, Lifted(step), su).wire, n) >= Takings(s.wire, n)
  {
    assert [step][0] == step;
    if step.Answer? {
      OfferedIsItsCall(s, su);
      var payload := s.loop.phase.left[0].payload;
      ReplayFidelity(s.calls[OfferedCall(s)].event, su.edge, su.base, PLAIN_SUCCESS);
      assert ReplayOutcome(payload, PLAIN_SUCCESS) == L.SendOutcome(true, None);
      SentMore(s.wire, OfferedCall(s), ReplayRequest(payload, PLAIN_SUCCESS), PLAIN_SUCCESS, n);
    }
  }

  /** Smooth steps of the retry loop are steps of the whole system, the answers being plain successes. */
  lemma {:induction false} Lift(s: State, rest: seq<L.Step<Fields>>, n: nat, su: Setup) returns (steps: seq<Step>)
    requires Inv(s, su) && Deliveries.Smooth(rest) && L.After(s.loop, rest, su.cfg).Some?
    ensures Uninterrupted(s, steps, n, su) && After(s, steps, su).Some?
    ensures var end := After(s, steps, su).value;
            && Inv(end, su) && end.loop == L.After(s.loop, rest, su.cfg).value && end.calls == s.calls
            && Takings(end.wire, n) >= Takings(s.wire, n)
    decreases |rest|
  {
    if rest == [] {
      steps := [];
    } else {
      var first := Lifted(rest[0]);
      LiftedStep(s, rest[0], n, su);
      StepKeepsInv(s, first, su);
      var more := Lift(Next(s, first, su), rest[1..], n, su);
      AfterFirst(s, first, more, su);
      steps := [first] + more;
      assert steps[1..] == more;
    }
  }

  lemma {:induction false} OneStepMore(s: State, steps: seq<Step>, last: Step, n: nat, su: Setup)
    requires Uninterrupted(s, steps, n, su) && After(s, steps, su).Some?
    requires Enabled(After(s, steps, su).value, last) && !InterruptsCall(After(s, steps, su).value, last, n, su)
    ensures Uninterrupted(s, steps + [last], n, su)
    ensures After(s, steps + [last], su) == Some(Next(After(s, steps, su).value, last, su))
    decreases |steps|
  {
    if steps == [] {
      assert steps + [last] == [last] + [];
      AfterFirst(s, last, [], su);
      UninterruptedFirst(s, last, [], n, su);
    } else {
      var next, rest := Next(s, steps[0], su), steps[1..] + [last];
      assert steps + [last] == [steps[0]] + rest;
      OneStepMore(next, steps[1..], last, n, su);
      AfterFirst(s, steps[0], rest, su);
      UninterruptedFirst(s, steps[0], rest, n, su);
    }
  }

  lemma UninterruptedFirst(s: State, step: Step, rest: seq<Step>, n: nat, su: Setup)
    requires Enabled(s, step) && !InterruptsCall(s, step, n, su) && Uninterrupted(Next(s, step, su), rest, n, su)
    ensures Uninterrupted(s, [step] + rest, n, su)
  {
    assert ([step] + rest)[1..] == rest;
  }

  /** A row that is to be sent is sent, and the server stores its event once more. */
  lemma TakeFromQueue(s: State, n: nat, su: Setup) returns (steps: seq<Step>)
    requires Inv(s, su) && n < |s.calls| && s.calls[n].row.Some? && MayBeSent(s, n)
    ensures Uninterrupted(s, steps, n, su) && TakesMore(s, steps, n, su)
  {
    var rest := Deliveries.Offer(s.loop, s.calls[n].row.value, su.cfg);
    var first := Lift(s, rest, n, su);
    var ready := After(s, first, su).value;
    OfferedIsItsCall(ready, su);
    var last := Replay(PLAIN_SUCCESS, ready.loop.clock);
    ReplayFidelity(ready.calls[n].event, su.edge, su.base, PLAIN_SUCCESS);
    SentMore(ready.wire, n, ReplayRequest(ready.loop.phase.left[0].payload, PLAIN_SUCCESS), PLAIN_SUCCESS, n);
    OneStepMore(s, first, last, n, su);
    steps := first + [last];
  }

  lemma StoredAwaits(s: State, n: nat, now: real, su: Setup)
    requires Inv(s, su) && n < |s.calls| && s.calls[n].stage.ToStore?
    ensures var t := Next(s, Store(n, now), su);
            t.calls[n].row.Some? && MayBeSent(t, n) && t.wire == s.wire
  {
    var t := Next(s, Store(n, now), su);
    L.StepIds(s.loop, LoopStep(s, Store(n, now), su), su.cfg);
    assert s.loop.nextId !in s.loop.confirmed;
  }

  lemma TakeFromCall(s: State, n: nat, su: Setup) returns (steps: seq<Step>)
    requires Inv(s, su) && n < |s.calls| && MayBeSent(s, n)
    ensures Uninterrupted(s, steps, n, su) && TakesMore(s, steps, n, su)
  {
    if s.calls[n].row.Some? {
      steps := TakeFromQueue(s, n, su);
    } else {
      var store := Store(n, s.loop.clock);
      var t := Next(s, store, su);
      StoredAwaits(s, n, s.loop.clock, su);
      StepKeepsInv(s, store, su);
      var more := TakeFromQueue(t, n, su);
      StepBefore(s, store, more, n, su);
      steps := [store] + more;
    }
  }

  lemma StepBefore(s: State, step: Step, more: seq<Step>, n: nat, su: Setup)
    requires Enabled(s, step) && !InterruptsCall(s, step, n, su)
    requires Next(s, step, su).wire == s.wire
    requires Uninterrupted(Next(s, step, su), more, n, su) && TakesMore(Next(s, step, su), more, n, su)
    ensures Uninterrupted(s, [step] + more, n, su) && TakesMore(s, [step] + more, n, su)
  {
    AfterFirst(s, step, more, su);
    assert ([step] + more)[1..] == more;
  }

  /** From any reachable state, and whatever the reason the server has the event already, it can come to store the
      event of a call once more without a lost removal if and only if the call is about to write its row, or the row
      is ahead of the loop, or it is in the table and the loop is not about to remove it. */
  lemma TakenAgainExactlyWhen(s: State, n: nat, su: Setup)
    requires Inv(s, su) && n < |s.calls|
    ensures MayBeSent(s, n) <==> exists steps :: Uninterrupted(s, steps, n, su) && TakesMore(s, steps, n, su)
  {
    if MayBeSent(s, n) {
      var steps := TakeFromCall(s, n, su);
    } else {
      forall steps | Uninterrupted(s, steps, n, su) && TakesMore(s, steps, n, su) ensures false {
        NothingMoreIsTaken(s, steps, n, su);
      }
    }
  }

  lemma StartsInv(now: real, su: Setup)
    ensures Inv(Initial(now), su)
  {
  }

  lemma IngestKeepsStart(s: State, ev: Event, lost: Exchange, su: Setup)
    requires s == Initial(0.0)
    ensures Inv(Next(s, Ingest(ev, lost, 0.0), su), su)
  {
    StartsInv(0.0, su);
    StepKeepsInv(s, Ingest(ev, lost, 0.0), su);
  }

  lemma LostIngest(s: State, ev: Event, lost: Exchange, su: Setup)
    requires s.calls == [] && s.wire == [] && s.loop == L.Initial(0.0) && s.origin == map[]
    requires lost.stored && Classify(lost.response).Retryable?
    ensures var t := Next(s, Ingest(ev, lost, 0.0), su);
            && t.loop == L.Initial(0.0) && t.calls == [Call(ev, None, ToStore(None))] && t.origin == map[]
            && Takings(t.wire, 0) == 1 && Confirmations(t.wire, 0) == 0
  {
    IngestStep(s, ev, lost, 0.0, su);
    LostCounts(s, ev, lost, su);
  }

  lemma LostCounts(s: State, ev: Event, lost: Exchange, su: Setup)
    requires lost.stored && Classify(lost.response).Retryable? && s.wire == []
    ensures var wire := SentFor(s.wire, 0, IngestRequest(ev, su.edge, su.base, lost), lost);
            Takings(wire, 0) == 1 && Confirmations(wire, 0) == 0
  {
    SentMore([], 0, IngestRequest(ev, su.edge, su.base, lost), lost, 0);
    AttemptCounts(s, 0, ev, su, lost, 0);
  }

  /** The first row, once written, is what the next pass offers first. */
  lemma FirstRowIsOffered(s: L.State<Fields>, payload: Fields, cfg: L.Config)
    requires s == L.Initial(0.0)
    ensures var t := L.Next(s, L.Insert(payload, 0.0), cfg);
            var u := L.Next(t, L.StartPass(0.0), cfg);
            && t.phase.Asleep? && u.phase == L.Sending([Item(1, payload, 0)], 0.0)
            && u.interruptions == multiset{}
  {
    var row := Row(1, payload, 0, 0.0, 0.0);
    var t := L.Next(s, L.Insert(payload, 0.0), cfg);
    assert t.rows == [row];
    AllKept([row], DueBy(0.0));
    assert Items([row]) == [Item(1, payload, 0)];
  }

  lemma StoredOffered(s: State, ev: Event, su: Setup) returns (t: State, u: State)
    requires Inv(s, su) && s.loop == L.Initial(0.0) && s.calls == [Call(ev, None, ToStore(None))] && s.origin == map[]
    ensures t == Next(s, Store(0, 0.0), su) && t.loop.phase.Asleep?
    ensures u == Next(t, Loop(L.StartPass(0.0)), su) && Inv(u, su)
    ensures u.loop.phase.Sending? && u.loop.phase.left != [] && OfferedCall(u) == 0
    ensures u.wire == s.wire && u.loop.interruptions == multiset{}
  {
    FirstRowIsOffered(s.loop, PayloadOf(ev, su), su.cfg);
    t := Next(s, Store(0, 0.0), su);
    StepKeepsInv(s, Store(0, 0.0), su);
    u := Next(t, Loop(L.StartPass(0.0)), su);
    StepKeepsInv(t, Loop(L.StartPass(0.0)), su);
  }

  lemma ReplayTakes(s: State, x: Exchange, su: Setup)
    requires Inv(s, su) && s.loop.phase.Sending? && s.loop.phase.left != [] && Classify(x.response).Sent?
    ensures var wire, n := NextWire(s, Replay(x, 0.0), su), OfferedCall(s);
            Takings(wire, n) == Takings(s.wire, n) + 1 && Confirmations(wire, n) == Confirmations(s.wire, n) + 1
  {
    OfferedIsItsCall(s, su);
    var n := OfferedCall(s);
    var ev := s.calls[n].event;
    ReplayFidelity(ev, su.edge, su.base, x);
    SentMore(s.wire, n, IngestRequest(ev, su.edge, su.base, x), x, n);
    AttemptCounts(s, n, ev, su, x, n);
  }

  lemma ReplayInterruptsNothing(s: State, x: Exchange, su: Setup)
    requires Enabled(s, Replay(x, 0.0))
    ensures Next(s, Replay(x, 0.0), su).loop.interruptions == s.loop.interruptions
  {
  }

  /** It happens without any fault at the edge: the server stores the event, the answer is lost to a timeout or replaced
      by a server error, and the replay stores it again. */
  lemma LostAnswerIsTakenTwice(ev: Event, lost: Exchange, su: Setup)
    requires lost.stored && Classify(lost.response).Retryable?
    ensures var steps := [Ingest(ev, lost, 0.0)] + ([Store(0, 0.0)] + ([Loop(L.StartPass(0.0))]
                         + [Replay(PLAIN_SUCCESS, 0.0)]));
            var end := After(Initial(0.0), steps, su);
            && end.Some? && Takings(end.value.wire, 0) == 2 && Confirmations(end.value.wire, 0) == 1
            && end.value.loop.interruptions == multiset{}
  {
    var start, last := Initial(0.0), Replay(PLAIN_SUCCESS, 0.0);
    var s := Next(start, Ingest(ev, lost, 0.0), su);
    IngestKeepsStart(start, ev, lost, su);
    LostIngest(start, ev, lost, su);
    AfterFirst(start, Ingest(ev, lost, 0.0), [Store(0, 0.0)] + ([Loop(L.StartPass(0.0))] + [last]), su);
    ReplayTakesAgain(s, ev, su);
  }

  lemma ReplayTakesAgain(s: State, ev: Event, su: Setup)
    requires Inv(s, su) && s.loop == L.Initial(0.0) && s.calls == [Call(ev, None, ToStore(None))] && s.origin == map[]
    ensures var steps := [Store(0, 0.0)] + ([Loop(L.StartPass(0.0))] + [Replay(PLAIN_SUCCESS, 0.0)]);
            var end := After(s, steps, su);
            && end.Some? && Takings(end.value.wire, 0) == Takings(s.wire, 0) + 1
            && Confirmations(end.value.wire, 0) == Confirmations(s.wire, 0) + 1
            && end.value.loop.interruptions == multiset{}
  {
    var t, u := StoredOffered(s, ev, su);
    var last := Replay(PLAIN_SUCCESS, 0.0);
    ReplayTakes(u, PLAIN_SUCCESS, su);
    ReplayInterruptsNothing(u, PLAIN_SUCCESS, su);
    AfterOne(u, last, su);
    AfterFirst(t, Loop(L.StartPass(0.0)), [last], su);
    AfterFirst(s, Store(0, 0.0), [Loop(L.StartPass(0.0))] + [last], su);
  }

  // ---------- The drain bound applies ----------

  /** The waits that calls carry are the server's, clamped. */
  ghost predicate WaitsClamped(s: State) {
    forall n :: 0 <= n < |s.calls| ==> StageClamped(s.calls[n].stage)
  }

  predicate StageClamped(stage: Stage) {
    match stage
    case ToStore(wait) => wait.Some? ==> wait.value <= Draining.MAX_RETRY_AFTER_SECONDS
    case ToPrune(wait) => wait.Some? ==> wait.value <= Draining.MAX_RETRY_AFTER_SECONDS
    case ToDefer(seconds) => seconds <= Draining.MAX_RETRY_AFTER_SECONDS
    case _ => true
  }

  lemma AnswersAreClamped(x: Exchange)
    ensures StageClamped(AnsweredStage(x))
  {
    if x.response.Status? {
      RetryAfterIsClamped(x.response.retryAfter);
    }
  }

  lemma {:induction false} RunKeepsWaitsClamped(states: seq<State>, steps: seq<Step>, su: Setup, k: nat)
    requires IsRun(states, steps, su) && k <= |steps|
    ensures WaitsClamped(states[k])
  {
    if k > 0 {
      RunKeepsWaitsClamped(states, steps, su, k - 1);
      if steps[k - 1].Ingest? {
        AnswersAreClamped(steps[k - 1].x);
      }
    }
  }

  /** With this client the clamp the drain bound relies on is never broken, whatever the server says: a clock that
      does not run backwards is all that is left to ask. So in every run every row is due within 900 s, and at every
      moment the queue is certain to drain exactly when the loop holds no failure that can still put a pending row
      off. */
  lemma TheServerCannotStallTheQueue(states: seq<State>, steps: seq<Step>, su: Setup, k: nat)
    requires IsRun(states, steps, su) && k <= |steps|
    requires forall i :: 0 <= i < |steps| ==> states[i].loop.clock <= Now(steps[i])
    ensures Draining.WithinReach(states[k].loop)
    ensures !Draining.Delays(states[k].loop)
       <==> forall rest :: !Draining.LeavesARowAfter900(states[k].loop, rest, su.cfg)
  {
    var loops, loopSteps := LoopStates(states), LoopSteps(states, steps, su);
    ClientRunIsALoopRun(states, steps, su);
    forall i | 0 <= i < |loopSteps| ensures Draining.Timely(loops[i], loopSteps[i]) {
      StepIsTimely(states, steps, su, i);
    }
    Draining.AlwaysDueWithin900(loops, loopSteps, su.cfg, k);
    Draining.DrainsExactlyWhen(loops, loopSteps, su.cfg, k);
  }

  lemma StepIsTimely(states: seq<State>, steps: seq<Step>, su: Setup, i: nat)
    requires IsRun(states, steps, su) && i < |steps| && states[i].loop.clock <= Now(steps[i])
    ensures Draining.Timely(states[i].loop, LoopStep(states[i], steps[i], su))
  {
    RunKeepsInv(states, steps, su, i);
    RunKeepsWaitsClamped(states, steps, su, i);
    var s := states[i];
    if steps[i].Replay? {
      OfferedIsItsCall(s, su);
      ReplayFidelity(s.calls[OfferedCall(s)].event, su.edge, su.base, steps[i].x);
    }
  }

  // ---------- A call that nothing interrupts ----------

  /** The steps by which call number `n` queues its event. */
  function QueueSteps(n: nat, wait: Option<int>, faults: Faults, now: real, pruneNow: real, deferNow: real): seq<Step> {
    match faults.enqueue
    case InsertFails => [Fault(n, now)]
    case PruneFails => [Store(n, now)] + [Fault(n, pruneNow)]
    case NoFault =>
      [Store(n, now)] + ([PruneAfter(n, pruneNow)] +
        if wait.None? then [] else [if faults.deferFails then Fault(n, deferNow) else Defer(n, deferNow)])
  }

  /** The steps of call number `n`. */
  function IngestSteps(n: nat, ev: Event, x: Exchange, faults: Faults, now: real, pruneNow: real, deferNow: real)
    : seq<Step>
  {
    [Ingest(ev, x, now)] +
    if AnsweredStage(x).ToStore? then QueueSteps(n, AnsweredStage(x).wait, faults, now, pruneNow, deferNow) else []
  }

  lemma PruneStep(s: State, n: nat, now: real, su: Setup)
    requires n < |s.calls| && s.calls[n].stage.ToPrune?
    ensures var t := Next(s, PruneAfter(n, now), su);
            && t.calls == s.calls[n := s.calls[n].(stage := PrunedStage(s.calls[n].stage))]
            && t.loop.rows == Pruned(s.loop.rows, now, su.cfg.maxAge, su.cfg.maxRows)
            && t.wire == s.wire && t.clips == s.clips
  {
  }

  lemma DeferStep(s: State, n: nat, now: real, su: Setup)
    requires n < |s.calls| && s.calls[n].stage.ToDefer?
    ensures var t := Next(s, Defer(n, now), su);
            && t.calls == s.calls[n := s.calls[n].(stage := Finished(Returned(true)))]
            && t.loop.rows == Deferred(s.loop.rows, now + AtLeastOne(s.calls[n].stage.seconds) as real)
            && t.wire == s.wire && t.clips == s.clips
  {
  }

  /** The prune, and the deferral if the server asked for one. */
  lemma PruneAndDefer(s: State, n: nat, faults: Faults, pruneNow: real, deferNow: real, su: Setup)
    requires n < |s.calls| && s.calls[n].stage.ToPrune?
    ensures var wait := s.calls[n].stage.wait;
            var steps := [PruneAfter(n, pruneNow)] +
              (if wait.None? then [] else [if faults.deferFails then Fault(n, deferNow) else Defer(n, deferNow)]);
            var end := After(s, steps, su);
            var pruned := Pruned(s.loop.rows, pruneNow, su.cfg.maxAge, su.cfg.maxRows);
            && end.Some? && |end.value.calls| == |s.calls| && end.value.calls[n].row == s.calls[n].row
            && end.value.calls[n].stage == Finished(Returned(wait.None? || !faults.deferFails))
            && end.value.wire == s.wire && end.value.clips == s.clips
            && end.value.loop.rows == (if wait.Some? && !faults.deferFails
                                       then Deferred(pruned, deferNow + AtLeastOne(wait.value) as real) else pruned)
  {
    var t := Next(s, PruneAfter(n, pruneNow), su);
    PruneStep(s, n, pruneNow, su);
    if s.calls[n].stage.wait.None? {
      AfterOne(s, PruneAfter(n, pruneNow), su);
      assert [PruneAfter(n, pruneNow)] + [] == [PruneAfter(n, pruneNow)];
    } else {
      var last := if faults.deferFails then Fault(n, deferNow) else Defer(n, deferNow);
      AfterFirst(s, PruneAfter(n, pruneNow), [last], su);
      AfterOne(t, last, su);
      if faults.deferFails {
        FaultStep(t, n, deferNow, su);
      } else {
        DeferStep(t, n, deferNow, su);
      }
    }
  }

  lemma StoreStep(s: State, n: nat, now: real, su: Setup)
    requires n < |s.calls| && s.calls[n].stage.ToStore?
    ensures var t := Next(s, Store(n, now), su);
            && t.calls == s.calls[n := Call(s.calls[n].event, Some(s.loop.nextId), ToPrune(s.calls[n].stage.wait))]
            && t.loop.rows == s.loop.rows + [Row(s.loop.nextId, PayloadOf(s.calls[n].event, su), 0, now, now)]
            && t.wire == s.wire && t.clips == s.clips
  {
  }

  lemma FaultStep(s: State, n: nat, now: real, su: Setup)
    requires n < |s.calls| && Unfinished(s.calls[n])
    ensures var t := Next(s, Fault(n, now), su);
            && t.calls == s.calls[n := s.calls[n].(stage := Finished(Returned(false)))]
            && t.loop.rows == s.loop.rows && t.wire == s.wire && t.clips == s.clips
  {
  }

  /** The state the call's own steps lead to is the one `IngestRows` and `IngestVerdict` describe. */
  ghost predicate QueuedAs(s: State, end: Option<State>, n: nat, x: Exchange, faults: Faults, now: real, pruneNow: real,
                           deferNow: real, su: Setup)
    requires n < |s.calls|
  {
    && end.Some? && |end.value.calls| == |s.calls|
    && end.value.calls[n].stage == Finished(IngestVerdict(x, faults))
    && end.value.calls[n].row == (if Queues(x, faults) then Some(s.loop.nextId) else s.calls[n].row)
    && end.value.wire == s.wire && end.value.clips == s.clips
    && end.value.loop.rows == IngestRows(s.loop.rows, s.loop.nextId, PayloadOf(s.calls[n].event, su), x, faults,
                                         su.cfg.maxRows, su.cfg.maxAge, now, pruneNow, deferNow)
  }

  lemma FailedQueueing(s: State, n: nat, x: Exchange, faults: Faults, now: real, pruneNow: real, deferNow: real,
                       su: Setup)
    requires n < |s.calls| && s.calls[n].stage.ToStore? && s.calls[n].stage == AnsweredStage(x)
    requires !faults.enqueue.NoFault?
    ensures QueuedAs(s, After(s, QueueSteps(n, s.calls[n].stage.wait, faults, now, pruneNow, deferNow), su),
                     n, x, faults, now, pruneNow, deferNow, su)
  {
    if faults.enqueue.InsertFails? {
      FaultStep(s, n, now, su);
      AfterOne(s, Fault(n, now), su);
    } else {
      var t := Next(s, Store(n, now), su);
      StoreStep(s, n, now, su);
      FaultStep(t, n, pruneNow, su);
      AfterFirst(s, Store(n, now), [Fault(n, pruneNow)], su);
      AfterOne(t, Fault(n, pruneNow), su);
    }
  }

  lemma FullQueueing(s: State, n: nat, x: Exchange, faults: Faults, now: real, pruneNow: real, deferNow: real,
                     su: Setup)
    requires n < |s.calls| && s.calls[n].stage.ToStore? && s.calls[n].stage == AnsweredStage(x)
    requires faults.enqueue.NoFault?
    ensures QueuedAs(s, After(s, QueueSteps(n, s.calls[n].stage.wait, faults, now, pruneNow, deferNow), su),
                     n, x, faults, now, pruneNow, deferNow, su)
  {
    var wait := s.calls[n].stage.wait;
    var t := Next(s, Store(n, now), su);
    StoreStep(s, n, now, su);
    PruneAndDefer(t, n, faults, pruneNow, deferNow, su);
    AfterFirst(s, Store(n, now),
               [PruneAfter(n, pruneNow)] +
                 (if wait.None? then [] else [if faults.deferFails then Fault(n, deferNow) else Defer(n, deferNow)]),
               su);
  }

  lemma IngestStep(s: State, ev: Event, x: Exchange, now: real, su: Setup)
    ensures var t := Next(s, Ingest(ev, x, now), su);
            && t.calls == s.calls + [Call(ev, None, AnsweredStage(x))]
            && t.loop == s.loop.(clock := now)
            && t.wire == SentFor(s.wire, |s.calls|, IngestRequest(ev, su.edge, su.base, x), x)
            && t.clips == ClippedFor(s.clips, |s.calls|, IngestClip(ev, su.edge, su.base, x))
  {
  }

  /** A call that queues nothing. */
  lemma NothingQueued(rows: Table<Fields>, id: int, q: Fields, x: Exchange, faults: Faults, maxRows: int, maxAge: int,
                      now: real, pruneNow: real, deferNow: real)
    requires !AnsweredStage(x).ToStore?
    ensures AnsweredStage(x) == Finished(IngestVerdict(x, faults)) && !Queues(x, faults)
    ensures IngestRows(rows, id, q, x, faults, maxRows, maxAge, now, pruneNow, deferNow) == rows
  {
  }

  /** The method `IngestEvent` refines the system: its verdict, its request, its clip job and the rows it leaves are
      those of the call's own steps. */
  lemma IngestIsARun(s: State, ev: Event, x: Exchange, faults: Faults, now: real, pruneNow: real, deferNow: real,
                     su: Setup)
    ensures var n := |s.calls|;
            var end := After(s, IngestSteps(n, ev, x, faults, now, pruneNow, deferNow), su);
            && end.Some? && |end.value.calls| == n + 1
            && end.value.calls[n].stage == Finished(IngestVerdict(x, faults))
            && end.value.calls[n].row == (if Queues(x, faults) then Some(s.loop.nextId) else None)
            && end.value.wire == SentFor(s.wire, n, IngestRequest(ev, su.edge, su.base, x), x)
            && end.value.clips == ClippedFor(s.clips, n, IngestClip(ev, su.edge, su.base, x))
            && end.value.loop.rows == IngestRows(s.loop.rows, s.loop.nextId, PayloadOf(ev, su), x, faults,
                                                 su.cfg.maxRows, su.cfg.maxAge, now, pruneNow, deferNow)
  {
    var n := |s.calls|;
    var ingest := Ingest(ev, x, now);
    var t := Next(s, ingest, su);
    IngestStep(s, ev, x, now, su);
    var rest :=
      if AnsweredStage(x).ToStore? then QueueSteps(n, AnsweredStage(x).wait, faults, now, pruneNow, deferNow) else [];
    AfterFirst(s, ingest, rest, su);
    if AnsweredStage(x).ToStore? {
      if faults.enqueue.NoFault? {
        FullQueueing(t, n, x, faults, now, pruneNow, deferNow, su);
      } else {
        FailedQueueing(t, n, x, faults, now, pruneNow, deferNow, su);
      }
    } else {
      NothingQueued(s.loop.rows, s.loop.nextId, PayloadOf(ev, su), x, faults, su.cfg.maxRows, su.cfg.maxAge, now,
                    pruneNow, deferNow);
    }
  }
}
