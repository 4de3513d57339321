/** The sending rules of analytics/src/analytics/core/vms_client.py: what `ingest_event` and the retry callback
    `_post_event_payload` do with each answer the server can give.

    The HTTP exchange is an oracle: an `Exchange` says what the server answered and what else the world did. The two
    paths are written from their own pieces, as in the source: `ingest_event` works from its arguments, the callback
    from the dictionary that came back from the queue. `ClientRuns` puts both into one system with the queue and the
    retry loop. */
module VmsClients {
  import opened Options
  import opened Outboxes
  import RetryLoop
  import opened Draining

  const DEFAULT_RETRY_AFTER_SECONDS := 30

  // ---------- Retry-After ----------

  /** What Python's `float` makes of the header text. */
  datatype Header = Unparsable | NotANumber | Infinite | Finite(value: real)

  /** `int` of a float: truncation toward zero. */
  function Truncate(r: real): int {
    if r >= 0.0 then r.Floor else -((-r).Floor)
  }

  /** The clamped wait, or nothing when the conversion itself raises: an infinite float has no `int`, and the error it
      raises is not one of the two that are caught. */
  function RetryAfterSeconds(h: Header): Option<int> {
    match h
    case Infinite => None
    case Finite(r) => Some(Clamp(Truncate(r)))
    case _ => Some(Clamp(DEFAULT_RETRY_AFTER_SECONDS))
  }

  function Clamp(seconds: int): int {
    var capped := if seconds < MAX_RETRY_AFTER_SECONDS then seconds else MAX_RETRY_AFTER_SECONDS;
    if capped > 1 then capped else 1
  }

  /** The wait is between 1 and 900 s whatever the server says, follows the header within a second where that is in
      range, and exists exactly when the header is not infinite. */
  lemma RetryAfterIsClamped(h: Header)
    ensures RetryAfterSeconds(h).None? <==> h.Infinite?
    ensures RetryAfterSeconds(h).Some? ==> 1 <= RetryAfterSeconds(h).value <= 900
    ensures h.Finite? && 1.0 <= h.value < 901.0 ==>
              RetryAfterSeconds(h).value as real <= h.value < RetryAfterSeconds(h).value as real + 1.0
    ensures h.Finite? && h.value < 1.0 ==> RetryAfterSeconds(h).value == 1
    ensures h.Finite? && h.value >= 901.0 ==> RetryAfterSeconds(h).value == 900
    ensures h.Unparsable? || h.NotANumber? ==> RetryAfterSeconds(h) == Some(30)
  {
    if h.Finite? && h.value >= 901.0 {
      assert h.value.Floor >= 900;
    }
  }

  // ---------- One exchange with the server ----------

  /** The decoded body of a success: no JSON at all, JSON without a usable event id, or an event id. */
  datatype Decoded = Undecodable | Anonymous | Identified(eventId: string)

  datatype Response =
    | Status(code: int, retryAfter: Header, decoded: Decoded)
    | TransportError
    | LocalError  // an exception of another kind before the request is made, such as an unreadable snapshot

  datatype SendResult = Sent(decoded: Decoded) | Throttle(seconds: int) | Retryable | Rejected | Crashed

  /** Which of the error classes of `_send_event` an exchange falls into. `Crashed` is any exception neither caller
      has a clause for. */
  function Classify(r: Response): SendResult {
    match r
    case TransportError => Retryable
    case LocalError => Crashed
    case Status(code, retryAfter, decoded) =>
      if 200 <= code < 300 then if decoded.Undecodable? then Crashed else Sent(decoded)
      else if code == 429 then
        match RetryAfterSeconds(retryAfter)
        case Some(seconds) => Throttle(seconds)
        case None => Crashed
      else if code >= 500 then Retryable
      else Rejected
  }

  predicate Accepted(r: Response) {
    r.Status? && 200 <= r.code < 300
  }

  /** The server has stored the event. It has whenever it says so; `stored` tells for every other answer, since the
      answer can be lost on its way or replaced by a proxy after the event was stored. */
  predicate Taken(r: Response, stored: bool) {
    Accepted(r) || (stored && !r.LocalError?)
  }

  // ---------- Events and payloads ----------

  datatype Key =
    | Body | LocalSnapshotPath | ClipContext
    | CameraId | EventType | Payload | Confidence | SnapshotPath | EdgeGeneratesClip
    | MediamtxPath | OccurredAt
    | Other(name: string)

  datatype Json =
    | Null
    | Text(text: string)
    | Number(number: real)
    | Flag(flag: bool)
    | List(items: seq<Json>)
    | Dict(fields: Fields)

  type Fields = map<Key, Json>

  /** `d.get(k)` */
  function Get(d: Fields, k: Key): Json {
    if k in d then d[k] else Null
  }

  function TextOrNull(s: Option<string>): Json {
    if s.Some? then Text(s.value) else Null
  }

  datatype Event = Event(
    cameraId: string, eventType: string, payload: Json, confidence: Option<real>, occurredAt: Option<string>,
    snapshotPath: Option<string>, mediamtxPath: Option<string>)

  /** The body of the request: what is absent has no key. */
  function MakeBody(ev: Event, edge: bool): Fields {
    var body := map[CameraId := Text(ev.cameraId), EventType := Text(ev.eventType), Payload := ev.payload];
    var body := if ev.confidence.Some? then body[Confidence := Number(ev.confidence.value)] else body;
    var body := if ev.occurredAt.Some? then body[OccurredAt := Text(ev.occurredAt.value)] else body;
    var body := if ev.snapshotPath.Some? then body[SnapshotPath := Text(ev.snapshotPath.value)] else body;
    if edge then body[EdgeGeneratesClip := Flag(true)] else body
  }

  function LocalSnapshot(ev: Event, edge: bool, base: string): Option<string> {
    if edge && ev.snapshotPath.Some? && ev.snapshotPath.value != "" then Some(base + "/" + ev.snapshotPath.value)
    else None
  }

  function MakeContext(ev: Event): Fields {
    map[MediamtxPath := TextOrNull(ev.mediamtxPath), OccurredAt := TextOrNull(ev.occurredAt)]
  }

  /** What is queued for an event. */
  function MakePayload(ev: Event, edge: bool, base: string): Fields {
    map[Body := Dict(MakeBody(ev, edge)), LocalSnapshotPath := TextOrNull(LocalSnapshot(ev, edge, base)),
        ClipContext := Dict(MakeContext(ev))]
  }

  // ---------- The two helpers both paths use ----------

  datatype Request = Request(body: Json, attachment: Option<string>)

  datatype ClipJob = ClipJob(eventId: string, localSnapshot: string, mediamtxPath: Json, occurredAt: Json)

  /** The world during one attempt: whether the snapshot file is still there, what answer arrives, whether the clip pool
      takes a job, and whether the server stored the event whatever the answer. */
  datatype Exchange = Exchange(fileExists: bool, response: Response, poolTakesJob: bool, stored: bool)

  /** What `_send_event` puts on the wire: the snapshot travels along while its file exists. */
  function Wire(body: Json, localSnapshot: Option<string>, x: Exchange): Option<Request> {
    if x.response.LocalError? then None
    else Some(Request(body, if localSnapshot.Some? && x.fileExists then localSnapshot else None))
  }

  /** `_enqueue_local_clip_task` */
  function ClipTask(eventId: string, localSnapshot: string, context: Fields, x: Exchange): Option<ClipJob> {
    if x.poolTakesJob then Some(ClipJob(eventId, localSnapshot, Get(context, MediamtxPath), Get(context, OccurredAt)))
    else None
  }

  /** The event id in the answer, if the event was confirmed with one. */
  function ConfirmedId(x: Exchange): Option<string> {
    match Classify(x.response)
    case Sent(Identified(eventId)) => if eventId != "" then Some(eventId) else None
    case _ => None
  }

  function Extended<T>(s: seq<T>, x: Option<T>): seq<T> {
    if x.Some? then s + [x.value] else s
  }

  // ---------- `ingest_event`, from its arguments ----------

  function IngestRequest(ev: Event, edge: bool, base: string, x: Exchange): Option<Request> {
    Wire(Dict(MakeBody(ev, edge)), LocalSnapshot(ev, edge, base), x)
  }

  function IngestClip(ev: Event, edge: bool, base: string, x: Exchange): Option<ClipJob> {
    var local, id := LocalSnapshot(ev, edge, base), ConfirmedId(x);
    if edge && local.Some? && id.Some? then ClipTask(id.value, local.value, MakeContext(ev), x) else None
  }

  // ---------- `_post_event_payload`, from the queued dictionary ----------

  /** A path that counts as present. */
  function LocalPath(j: Json): Option<string> {
    if j.Text? && j.text != "" then Some(j.text) else None
  }

  function ContextOf(j: Json): Fields {
    if j.Dict? then j.fields else map[]
  }

  /** A payload without a body is an exception, and the callback turns every exception into "not delivered". */
  function ReplayRequest(q: Fields, x: Exchange): Option<Request> {
    if Body in q then Wire(q[Body], LocalPath(Get(q, LocalSnapshotPath)), x) else None
  }

  function ReplayClip(q: Fields, edge: bool, x: Exchange): Option<ClipJob> {
    var local, id := LocalPath(Get(q, LocalSnapshotPath)), ConfirmedId(x);
    if Body in q && edge && local.Some? && id.Some?
    then ClipTask(id.value, local.value, ContextOf(Get(q, ClipContext)), x)
    else None
  }

  function ReplayOutcome(q: Fields, x: Exchange): RetryLoop.SendOutcome {
    if Body !in q then RetryLoop.SendOutcome(false, None)
    else
      match Classify(x.response)
      case Sent(_) => RetryLoop.SendOutcome(true, None)
      case Throttle(seconds) => RetryLoop.SendOutcome(false, Some(seconds))
      case _ => RetryLoop.SendOutcome(false, None)
  }

  // ---------- The client ----------

  datatype Verdict = Returned(value: bool) | Raised

  datatype EnqueueFault = NoFault | InsertFails | PruneFails

  /** Which outbox operations fail during a call. */
  datatype Faults = Faults(enqueue: EnqueueFault, deferFails: bool)

  class VmsClient {
    const edgeDeployment: bool
    const snapshotsBase: string
    const outbox: EventOutbox<Fields>
    var started: bool
    var wire: seq<Request>
    var clipJobs: seq<ClipJob>

    constructor (edgeDeployment: bool, snapshotsBase: string, outbox: EventOutbox<Fields>)
      ensures this.edgeDeployment == edgeDeployment && this.snapshotsBase == snapshotsBase && this.outbox == outbox
      ensures !started && wire == [] && clipJobs == []
    {
      this.edgeDeployment, this.snapshotsBase, this.outbox := edgeDeployment, snapshotsBase, outbox;
      started, wire, clipJobs := false, [], [];
    }

    method Start()
      modifies this`started
      ensures started
    {
      started := true;
    }

    method Close()
      modifies this`started
      ensures !started
    {
      started := false;
    }

    method SendEvent(body: Json, localSnapshot: Option<string>, x: Exchange) returns (result: SendResult)
      modifies this`wire
      ensures result == Classify(x.response) && wire == Extended(old(wire), Wire(body, localSnapshot, x))
    {
      if !x.response.LocalError? {
        var attachment := if localSnapshot.Some? && x.fileExists then localSnapshot else None;
        wire := wire + [Request(body, attachment)];
      }
      result := Classify(x.response);
    }

    method EnqueueLocalClipTask(eventId: string, localSnapshot: string, context: Fields, x: Exchange)
      modifies this`clipJobs
      ensures clipJobs == Extended(old(clipJobs), ClipTask(eventId, localSnapshot, context, x))
    {
      if x.poolTakesJob {
        clipJobs := clipJobs + [ClipJob(eventId, localSnapshot, Get(context, MediamtxPath), Get(context, OccurredAt))];
      }
    }

    method IngestEvent(ev: Event, x: Exchange, faults: Faults, now: real, pruneNow: real, deferNow: real)
      returns (v: Verdict)
      requires outbox.Valid()
      modifies this`wire, this`clipJobs, outbox
      ensures outbox.Valid()
      ensures !started ==> v == Returned(false) && wire == old(wire) && clipJobs == old(clipJobs)
                           && outbox.rows == old(outbox.rows)
      ensures started ==>
                && v == IngestVerdict(x, faults)
                && wire == Extended(old(wire), IngestRequest(ev, edgeDeployment, snapshotsBase, x))
                && clipJobs == Extended(old(clipJobs), IngestClip(ev, edgeDeployment, snapshotsBase, x))
                && outbox.rows == IngestRows(old(outbox.rows), old(outbox.nextId),
                                             MakePayload(ev, edgeDeployment, snapshotsBase), x, faults,
                                             outbox.maxRows, outbox.maxAge, now, pruneNow, deferNow)
    {
      if !started {
        return Returned(false);
      }
      var body := MakeBody(ev, edgeDeployment);
      var local := LocalSnapshot(ev, edgeDeployment, snapshotsBase);
      var context := MakeContext(ev);
      var result := SendEvent(Dict(body), local, x);
      if result.Retryable? || result.Throttle? {
        var q := map[Body := Dict(body), LocalSnapshotPath := TextOrNull(local), ClipContext := Dict(context)];
        assert q == MakePayload(ev, edgeDeployment, snapshotsBase);
        if faults.enqueue.InsertFails? {
          return Returned(false);
        }
        if faults.enqueue.PruneFails? {
          var _ := outbox.Insert(q, now);
          return Returned(false);
        }
        var _ := outbox.Enqueue(q, now, pruneNow);
        if result.Throttle? {
          if faults.deferFails {
            return Returned(false);
          }
          outbox.DeferAll(result.seconds, deferNow);
        }
        return Returned(true);
      }
      if result.Rejected? {
        return Returned(false);
      }
      if result.Crashed? {
        return Raised;
      }
      if edgeDeployment && local.Some? {
        if result.decoded.Identified? && result.decoded.eventId != "" {
          EnqueueLocalClipTask(result.decoded.eventId, local.value, context, x);
        }
      }
      v := Returned(true);
    }

    method PostEventPayload(q: Fields, x: Exchange) returns (outcome: RetryLoop.SendOutcome)
      modifies this`wire, this`clipJobs
      ensures outcome == ReplayOutcome(q, x)
      ensures wire == Extended(old(wire), ReplayRequest(q, x))
      ensures clipJobs == Extended(old(clipJobs), ReplayClip(q, edgeDeployment, x))
    {
      if Body !in q {
        return RetryLoop.SendOutcome(false, None);
      }
      var local := LocalPath(Get(q, LocalSnapshotPath));
      var result := SendEvent(q[Body], local, x);
      if result.Throttle? {
        return RetryLoop.SendOutcome(false, Some(result.seconds));
      }
      if !result.Sent? {
        return RetryLoop.SendOutcome(false, None);
      }
      if edgeDeployment && local.Some? {
        if result.decoded.Identified? && result.decoded.eventId != "" {
          EnqueueLocalClipTask(result.decoded.eventId, local.value, ContextOf(Get(q, ClipContext)), x);
        }
      }
      outcome := RetryLoop.SendOutcome(true, None);
    }
  }

  // ---------- What is sent, read back ----------

  /** An event as the server reads it off a request body (api/src/vms/plugins/schemas.py): camera, type and payload
      must be there, the rest may be absent. */
  datatype Received = Received(
    cameraId: string, eventType: string, payload: Json, confidence: Option<real>, occurredAt: Option<string>,
    snapshotPath: Option<string>, edgeGeneratesClip: bool)

  function ReadBody(body: Json): Option<Received> {
    if !body.Dict? then None
    else
      var f := body.fields;
      if Get(f, CameraId).Text? && Get(f, EventType).Text? && Payload in f then
        Some(Received(f[CameraId].text, f[EventType].text, f[Payload], NumberAt(f, Confidence), TextAt(f, OccurredAt),
                      TextAt(f, SnapshotPath), Get(f, EdgeGeneratesClip) == Flag(true)))
      else None
  }

  function TextAt(f: Fields, k: Key): Option<string> {
    if Get(f, k).Text? then Some(f[k].text) else None
  }

  function NumberAt(f: Fields, k: Key): Option<real> {
    if Get(f, k).Number? then Some(f[k].number) else None
  }

  /** The body tells the server each of the event's fields, the edge flag exactly on an edge, and nothing else: what the
      event lacks has no key. */
  predicate Tells(body: Json, ev: Event, edge: bool) {
    var r := ReadBody(body);
    && r.Some?
    && r.value.cameraId == ev.cameraId && r.value.eventType == ev.eventType && r.value.payload == ev.payload
    && r.value.confidence == ev.confidence && r.value.occurredAt == ev.occurredAt
    && r.value.snapshotPath == ev.snapshotPath && r.value.edgeGeneratesClip == edge
    && (Confidence in body.fields <==> ev.confidence.Some?)
    && (OccurredAt in body.fields <==> ev.occurredAt.Some?)
    && (SnapshotPath in body.fields <==> ev.snapshotPath.Some?)
    && (EdgeGeneratesClip in body.fields <==> edge)
    && body.fields.Keys <= {CameraId, EventType, Payload, Confidence, OccurredAt, SnapshotPath, EdgeGeneratesClip}
  }

  lemma BodyReadsBack(ev: Event, edge: bool)
    ensures Tells(Dict(MakeBody(ev, edge)), ev, edge)
  {
  }

  /** The event has a snapshot on this machine's disk. */
  predicate HasSnapshot(ev: Event, edge: bool) {
    edge && ev.snapshotPath.Some? && ev.snapshotPath.value != ""
  }

  /** What `ingest_event` sends: always the event itself unless the request is never made, its snapshot exactly when
      there is one and its file exists; and a clip job with the event's own context exactly when there is a snapshot,
      the server accepts with an event id, and the pool takes it. By `ReplayFidelity` the same goes for a replay. */
  lemma IngestSendsItsEvent(ev: Event, edge: bool, base: string, x: Exchange)
    ensures IngestRequest(ev, edge, base, x).None? <==> x.response.LocalError?
    ensures var request := IngestRequest(ev, edge, base, x);
            request.Some? ==>
              && Tells(request.value.body, ev, edge)
              && request.value.attachment
                 == if HasSnapshot(ev, edge) && x.fileExists then Some(base + "/" + ev.snapshotPath.value) else None
    ensures var clips :=
              HasSnapshot(ev, edge) && Accepted(x.response) && x.response.decoded.Identified?
              && x.response.decoded.eventId != "" && x.poolTakesJob;
            IngestClip(ev, edge, base, x)
            == if clips then
                 Some(ClipJob(x.response.decoded.eventId, base + "/" + ev.snapshotPath.value,
                              if ev.mediamtxPath.Some? then Text(ev.mediamtxPath.value) else Null,
                              if ev.occurredAt.Some? then Text(ev.occurredAt.value) else Null))
               else None
  {
    BodyReadsBack(ev, edge);
  }

  /** What a replay reports to the loop: a delivery for a decoded success, the server's own wait for a 429, and a plain
      failure for everything else. */
  lemma ReplayReports(q: Fields, x: Exchange)
    requires Body in q
    ensures var r, o := x.response, ReplayOutcome(q, x);
            && (Accepted(r) && !r.decoded.Undecodable? ==> o == RetryLoop.SendOutcome(true, None))
            && (r.Status? && r.code == 429 ==>
                 o == match r.retryAfter
                      case Infinite => RetryLoop.SendOutcome(false, None)
                      case Finite(w) =>
                        RetryLoop.SendOutcome(false, Some(if w < 1.0 then 1 else if w < 901.0 then w.Floor else 900))
                      case _ => RetryLoop.SendOutcome(false, Some(30)))
            && (!Accepted(r) && !(r.Status? && r.code == 429) ==> o == RetryLoop.SendOutcome(false, None))
            && (Accepted(r) && r.decoded.Undecodable? ==> o == RetryLoop.SendOutcome(false, None))
  {
    if x.response.Status? {
      RetryAfterIsClamped(x.response.retryAfter);
    }
  }

  /** A call that the server throttles for `w` seconds leaves nothing due before the end of that wait. */
  lemma ThrottledCallSilences(rows: Table<Fields>, id: int, q: Fields, x: Exchange, maxRows: int, maxAge: int,
                              now: real, pruneNow: real, deferNow: real)
    requires x.response.Status? && x.response.code == 429
    requires x.response.retryAfter.Finite? && 1.0 <= x.response.retryAfter.value < 901.0
    ensures var after := IngestRows(rows, id, q, x, Faults(NoFault, false), maxRows, maxAge, now, pruneNow, deferNow);
            forall i :: 0 <= i < |after| ==>
              after[i].nextAttemptAt >= deferNow + x.response.retryAfter.value.Floor as real
  {
    RetryAfterIsClamped(x.response.retryAfter);
    assert Classify(x.response) == Throttle(x.response.retryAfter.value.Floor);
  }

  // ---------- What one call of `ingest_event` comes to ----------

  function IngestVerdict(x: Exchange, faults: Faults): Verdict {
    match Classify(x.response)
    case Sent(_) => Returned(true)
    case Rejected => Returned(false)
    case Crashed => Raised
    case Retryable => Returned(faults.enqueue.NoFault?)
    case Throttle(_) => Returned(faults.enqueue.NoFault? && !faults.deferFails)
  }

  /** A row is written for the event. */
  predicate Queues(x: Exchange, faults: Faults) {
    (Classify(x.response).Retryable? || Classify(x.response).Throttle?) && !faults.enqueue.InsertFails?
  }

  function IngestRows(rows: Table<Fields>, id: int, q: Fields, x: Exchange, faults: Faults, maxRows: int, maxAge: int,
                      now: real, pruneNow: real, deferNow: real): Table<Fields> {
    if !Queues(x, faults) then rows
    else
      var inserted := rows + [Row(id, q, 0, now, now)];
      if faults.enqueue.PruneFails? then inserted
      else
        var pruned := Pruned(inserted, pruneNow, maxAge, maxRows);
        if Classify(x.response).Throttle? && !faults.deferFails
        then Deferred(pruned, deferNow + AtLeastOne(Classify(x.response).seconds) as real)
        else pruned
  }

  /** The server answers by refusing the event: any status but a success, a 429 and a server error. */
  predicate Refused(r: Response) {
    r.Status? && !Accepted(r) && r.code != 429 && r.code < 500
  }

  /** An answer that makes the event be queued: none at all, a server error, or a 429 with a finite wait. */
  predicate Transient(r: Response) {
    r.TransportError? || (r.Status? && (r.code >= 500 || (r.code == 429 && !r.retryAfter.Infinite?)))
  }

  /** What the caller learns. `True` means that the event is on its way: the server has stored it, or a row was
      queued. The converse fails exactly in these cases: the server accepts but its body cannot be decoded; it has
      stored the event although the answer that arrives is a 429 with an infinite wait or a refusal; it has stored it,
      the answer is lost and the insert fails; or a row is queued and the prune or the deferral after it fails. */
  lemma TrueExactlyWhen(x: Exchange, faults: Faults)
    ensures var r, onItsWay := x.response, Taken(x.response, x.stored) || Queues(x, faults);
            && (IngestVerdict(x, faults) == Returned(true) ==> onItsWay)
            && (onItsWay && IngestVerdict(x, faults) != Returned(true) <==>
                 || (Accepted(r) && r.decoded.Undecodable?)
                 || (x.stored && r.Status? && r.code == 429 && r.retryAfter.Infinite?)
                 || (x.stored && Refused(r))
                 || (x.stored && Transient(r) && faults.enqueue.InsertFails?)
                 || (Transient(r) && faults.enqueue.PruneFails?)
                 || (Classify(r).Throttle? && faults.enqueue.NoFault? && faults.deferFails))
  {
    if x.response.Status? {
      RetryAfterIsClamped(x.response.retryAfter);
    }
  }

  /** The call raises exactly for a local error, an undecodable success and a 429 with an infinite wait. A row is
      written exactly for a transient answer, if the insert works: in the 4xx range only for a 429 with a finite wait.
      */
  lemma RaisesAndQueuesExactlyWhen(x: Exchange, faults: Faults)
    ensures var r := x.response;
            && (IngestVerdict(x, faults) == Raised <==>
                 || r.LocalError?
                 || (Accepted(r) && r.decoded.Undecodable?)
                 || (r.Status? && r.code == 429 && r.retryAfter.Infinite?))
            && (Queues(x, faults) <==> Transient(r) && !faults.enqueue.InsertFails?)
  {
    if x.response.Status? {
      RetryAfterIsClamped(x.response.retryAfter);
    }
  }

  // ---------- Replay ----------

  /** A payload that comes back from the queue makes the callback do what `ingest_event` would have done for the event
      with the same answer: the same request, the same clip job. It is delivered exactly when the immediate call would
      have been confirmed, and its waits respect the clamp. */
  lemma ReplayFidelity(ev: Event, edge: bool, base: string, x: Exchange)
    ensures var q := MakePayload(ev, edge, base);
            && ReplayRequest(q, x) == IngestRequest(ev, edge, base, x)
            && ReplayClip(q, edge, x) == IngestClip(ev, edge, base, x)
            && (ReplayOutcome(q, x).delivered <==> Classify(x.response).Sent?)
            && Clamped(RetryLoop.Full(ReplayOutcome(q, x)))
  {
    if x.response.Status? {
      RetryAfterIsClamped(x.response.retryAfter);
    }
    var local := LocalSnapshot(ev, edge, base);
    assert local.Some? ==> |local.value| > 0;
    assert LocalPath(TextOrNull(local)) == local;
  }
}
