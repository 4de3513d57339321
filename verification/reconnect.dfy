/** The connection state of arcanum/internal/provider/whatsmeow.go: status, QR code and the reconnect counter, as
    changed by the library's events, the QR channel and the reconnect timers. Each event is handled as one step. */
module Reconnection {

  const MAX_RECONNECTS := 10

  datatype Status = Disconnected | Connecting | AwaitingScan | Connected

  datatype Event =
    | ConnectedEvent
    | DisconnectedEvent
    | LoggedOutEvent
    | QrCode(code: string)
    | QrSuccess
    | QrTimeout
    | ConnectCalled(paired: bool)  // by the caller or by a reconnect timer; whether a device is already paired
    | OtherEvent                   // messages, history syncs, other QR channel events

  /** `armed` is the list of the delays, in seconds, of all reconnect timers armed so far. */
  datatype State = State(status: Status, qrCode: string, attempts: nat, armed: seq<nat>)

  const INITIAL := State(Disconnected, "", 0, [])

  function ReconnectDelay(attempt: nat): nat {
    if 5 * attempt > 30 then 30 else 5 * attempt
  }

  function Reconnected(s: State): State {
    var s := s.(attempts := s.attempts + 1);
    if s.attempts > MAX_RECONNECTS then s.(status := Disconnected)
    else s.(status := Connecting, armed := s.armed + [ReconnectDelay(s.attempts)])
  }

  function Next(s: State, e: Event): State {
    match e
    case ConnectedEvent => s.(status := Connected, qrCode := "", attempts := 0)
    case DisconnectedEvent => Reconnected(s)
    case LoggedOutEvent => s.(status := Disconnected, qrCode := "")
    case QrCode(code) => s.(status := AwaitingScan, qrCode := code)
    case QrSuccess => s.(qrCode := "")
    case QrTimeout => Reconnected(s.(qrCode := ""))
    case ConnectCalled(paired) => if paired then s.(status := Connecting) else s
    case OtherEvent => s
  }

  class WhatsmeowProvider {
    var status: Status
    var qrCode: string
    var reconnectAttempts: nat
    var armed: seq<nat>
    const maxReconnects: int := MAX_RECONNECTS

    function GetState(): State
      reads this
    {
      State(status, qrCode, reconnectAttempts, armed)
    }

    constructor ()
      ensures GetState() == INITIAL
    {
      status, qrCode, reconnectAttempts, armed := Disconnected, "", 0, [];
    }

    method EventHandler(e: Event)
      requires e.ConnectedEvent? || e.DisconnectedEvent? || e.LoggedOutEvent? || e.OtherEvent?
      modifies this
      ensures GetState() == Next(old(GetState()), e)
    {
      match e {
        case ConnectedEvent =>
          status := Connected;
          qrCode := "";
          reconnectAttempts := 0;
        case DisconnectedEvent =>
          Reconnect();
        case LoggedOutEvent =>
          status := Disconnected;
          qrCode := "";
        case _ =>
      }
    }

    method QrChannelEvent(e: Event)
      requires e.QrCode? || e.QrSuccess? || e.QrTimeout? || e.OtherEvent?
      modifies this
      ensures GetState() == Next(old(GetState()), e)
    {
      match e {
        case QrCode(code) =>
          qrCode := code;
          status := AwaitingScan;
        case QrSuccess =>
          qrCode := "";
        case QrTimeout =>
          qrCode := "";
          Reconnect();
        case _ =>
      }
    }

    method Connect(paired: bool)
      modifies this
      ensures GetState() == Next(old(GetState()), ConnectCalled(paired))
    {
      if !paired {
        return;
      }
      status := Connecting;
    }

    method Reconnect()
      modifies this
      ensures GetState() == Reconnected(old(GetState()))
    {
      reconnectAttempts := reconnectAttempts + 1;
      if reconnectAttempts > maxReconnects {
        status := Disconnected;
        return;
      }
      var delay := 5 * reconnectAttempts;
      if delay > 30 {
        delay := 30;
      }
      status := Connecting;
      armed := armed + [delay];
    }
  }

  // ---------- Runs ----------

  function Run(events: seq<Event>): State {
    if events == [] then INITIAL else Next(Run(events[..|events| - 1]), events[|events| - 1])
  }

  predicate Triggers(e: Event) {
    e.DisconnectedEvent? || e.QrTimeout?
  }

  function Connections(events: seq<Event>): nat {
    if events == [] then 0
    else Connections(events[..|events| - 1]) + if events[|events| - 1].ConnectedEvent? then 1 else 0
  }

  /** How many events that call for a reconnect have come since the last connection. */
  function TriggersSince(events: seq<Event>): nat {
    if events == [] || events[|events| - 1].ConnectedEvent? then 0
    else TriggersSince(events[..|events| - 1]) + if Triggers(events[|events| - 1]) then 1 else 0
  }

  /** How many timers had been armed when the last connection came. */
  function ArmedBefore(events: seq<Event>): nat {
    if events == [] then 0
    else if events[|events| - 1].ConnectedEvent? then |Run(events).armed|
    else ArmedBefore(events[..|events| - 1])
  }

  function Total(delays: seq<nat>): nat {
    if delays == [] then 0 else Total(delays[..|delays| - 1]) + delays[|delays| - 1]
  }

  /** The delays of the first `n` attempts. */
  function Ladder(n: nat): (delays: seq<nat>)
    ensures |delays| == n
  {
    if n == 0 then [] else Ladder(n - 1) + [ReconnectDelay(n)]
  }

  function AtMostTen(n: nat): nat {
    if n < MAX_RECONNECTS then n else MAX_RECONNECTS
  }

  /** In every run, the timers armed since the last connection are the first min(10, n) rungs of the ladder 5, 10, 15,
      20, 25, 30, 30, ... where n is the number of events since then that called for a reconnect. */
  lemma {:induction false} ArmedIsTheLadder(events: seq<Event>)
    ensures Run(events).attempts == TriggersSince(events)
    ensures ArmedBefore(events) <= |Run(events).armed|
    ensures Run(events).armed[ArmedBefore(events)..] == Ladder(AtMostTen(TriggersSince(events)))
  {
    if events != [] {
      var before, e := events[..|events| - 1], events[|events| - 1];
      ArmedIsTheLadder(before);
      if Triggers(e) && TriggersSince(events) <= MAX_RECONNECTS {
        var k := ArmedBefore(before);
        var delay := ReconnectDelay(TriggersSince(events));
        assert (Run(before).armed + [delay])[k..] == Run(before).armed[k..] + [delay];
      }
    }
  }

  function LadderSum(n: nat): nat {
    if n == 0 then 0 else LadderSum(n - 1) + ReconnectDelay(n)
  }

  lemma {:induction false} LadderTotal(n: nat)
    ensures Total(Ladder(n)) == LadderSum(n)
  {
    if n > 0 {
      LadderTotal(n - 1);
      assert Ladder(n)[..n - 1] == Ladder(n - 1);
    }
  }

  lemma {:induction false} SumGrows(m: nat, n: nat)
    requires m <= n
    ensures LadderSum(m) <= LadderSum(n)
  {
    if m < n {
      SumGrows(m, n - 1);
    }
  }

  lemma WholeLadder()
    ensures LadderSum(10) == 225
  {
    assert LadderSum(2) == 15;
    assert LadderSum(4) == 50;
    assert LadderSum(6) == 105;
    assert LadderSum(8) == 165;
  }

  /** Between two connections the timers armed wait 225 s in all, at most, and exactly that once ten are armed. */
  lemma WaitBetweenConnections(events: seq<Event>)
    ensures ArmedBefore(events) <= |Run(events).armed|
    ensures Total(Run(events).armed[ArmedBefore(events)..]) <= 225
    ensures TriggersSince(events) >= 10 ==> Total(Run(events).armed[ArmedBefore(events)..]) == 225
  {
    ArmedIsTheLadder(events);
    var rungs := AtMostTen(TriggersSince(events));
    LadderTotal(rungs);
    SumGrows(rungs, 10);
    WholeLadder();
  }

  /** The amortised bound: over any run at most ten timers are armed per connection, counting the start as one. */
  lemma {:induction false} ReconnectsAreBounded(events: seq<Event>)
    ensures |Run(events).armed| <= MAX_RECONNECTS * (1 + Connections(events))
    ensures ArmedBefore(events) <= MAX_RECONNECTS * Connections(events)
  {
    if events != [] {
      ReconnectsAreBounded(events[..|events| - 1]);
    }
    ArmedIsTheLadder(events);
  }

  /** After every event, being connected means that no QR code is left to show. */
  lemma {:induction false} ConnectedHidesQrCode(events: seq<Event>)
    ensures Run(events).status == Connected ==> Run(events).qrCode == ""
  {
    if events != [] {
      ConnectedHidesQrCode(events[..|events| - 1]);
    }
  }

  /** It gives up exactly from the eleventh call on: such an event then leaves the status Disconnected and arms nothing,
      before that it leaves Connecting and arms one timer. */
  lemma GivesUpAfterTen(events: seq<Event>, e: Event)
    requires Triggers(e)
    ensures var before, after := Run(events), Run(events + [e]);
            if TriggersSince(events) < MAX_RECONNECTS
            then after.status == Connecting && after.armed == before.armed + [ReconnectDelay(TriggersSince(events) + 1)]
            else after.status == Disconnected && after.armed == before.armed
  {
    ArmedIsTheLadder(events);
    assert (events + [e])[..|events|] == events;
  }

  /** The rungs, in seconds. */
  lemma LadderInSeconds(n: nat)
    requires n >= 1
    ensures ReconnectDelay(n) == if n <= 5 then [5, 10, 15, 20, 25][n - 1] else 30
    ensures Ladder(10) == [5, 10, 15, 20, 25, 30, 30, 30, 30, 30]
  {
    assert Ladder(2) == [5, 10];
    assert Ladder(4) == [5, 10, 15, 20];
    assert Ladder(6) == [5, 10, 15, 20, 25, 30];
    assert Ladder(8) == [5, 10, 15, 20, 25, 30, 30, 30];
  }

  // ---------- What the status and the code mean ----------

  datatype Latest = Nothing | Just(event: Event)

  /** The latest event that has a say in the status. */
  function LatestForStatus(events: seq<Event>): Latest {
    if events == [] then Nothing
    else
      var e := events[|events| - 1];
      if e.QrSuccess? || e.OtherEvent? || e == ConnectCalled(false) then LatestForStatus(events[..|events| - 1])
      else Just(e)
  }

  /** In every run the status is told by the latest event that has a say: connected after a connection and only then, a
      code to scan after a code, disconnected at the start, after a logout and once reconnecting has been given up, and
      connecting otherwise. */
  lemma {:induction false} StatusTellsTheLatestEvent(events: seq<Event>)
    ensures var latest, status := LatestForStatus(events), Run(events).status;
            && (status == Connected <==> latest == Just(ConnectedEvent))
            && (status == AwaitingScan <==> latest.Just? && latest.event.QrCode?)
            && (status == Disconnected <==>
                 || latest == Nothing || latest == Just(LoggedOutEvent)
                 || ((latest == Just(DisconnectedEvent) || latest == Just(QrTimeout)) && TriggersSince(events) > 10))
  {
    ArmedIsTheLadder(events);
    if events != [] {
      StatusTellsTheLatestEvent(events[..|events| - 1]);
      ArmedIsTheLadder(events[..|events| - 1]);
    }
  }

  /** The latest event that has a say in the code to show. */
  function LatestForCode(events: seq<Event>): Latest {
    if events == [] then Nothing
    else
      var e := events[|events| - 1];
      if e.DisconnectedEvent? || e.ConnectCalled? || e.OtherEvent? then LatestForCode(events[..|events| - 1])
      else Just(e)
  }

  /** In every run the code to show is that of the latest QR event, and none once it was scanned or timed out, or the
      session connected or logged out. */
  lemma {:induction false} CodeIsTheLatest(events: seq<Event>)
    ensures var latest := LatestForCode(events);
            Run(events).qrCode == if latest.Just? && latest.event.QrCode? then latest.event.code else ""
  {
    if events != [] {
      CodeIsTheLatest(events[..|events| - 1]);
    }
  }
}
