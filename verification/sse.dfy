/** The shared server-sent-events connection of frontend/src/hooks/useSSE.ts.

    All components of a tab share one module: one EventSource in `es`, one token refresh at a time, a doubling backoff.
    Callbacks run one after another but in any order, and a callback of a connection that has been replaced may still
    arrive. `SharedConnection` holds the module's variables together with what the browser holds for it: the
    EventSources not closed, the timers not fired, the refreshes not answered. */
module SharedSse {
  import opened Options

  const MIN_BACKOFF := 1000
  const MAX_BACKOFF := 30000

  datatype Token = Token(text: string)

  /** A pending timer: what the refresh before it gave, and its delay in milliseconds. */
  datatype Timer = Timer(id: int, renewed: Option<Token>, delay: int)

  datatype State = State(
    es: Option<int>, currentToken: Option<Token>, reconnectTimer: Option<int>, backoff: int, refreshing: bool,
    listeners: set<int>,
    created: int, open: set<int>, timersMade: int, timers: set<Timer>, refreshesStarted: int, refreshesInFlight: int)

  const INITIAL := State(None, None, None, MIN_BACKOFF, false, {}, 0, {}, 0, {}, 0, 0)

  /** What can happen: a component mounts with a token or unmounts, a connection opens or fails, a refresh is answered
      (with a fresh token or not), a timer fires (while the store holds some token or none). */
  datatype Action =
    | Mount(listener: int, token: Token)
    | Unmount(listener: int)
    | Opened(conn: int)
    | Errored(conn: int)
    | Refreshed(renewed: Option<Token>)
    | Fired(timer: Timer, stored: Option<Token>)

  function Teardown(s: State): State {
    s.(timers := if s.reconnectTimer.Some? then Without(s.timers, s.reconnectTimer.value) else s.timers,
       reconnectTimer := None,
       open := if s.es.Some? then s.open - {s.es.value} else s.open,
       es := None,
       currentToken := None)
  }

  function Without(timers: set<Timer>, id: int): set<Timer> {
    set t | t in timers && t.id != id
  }

  function Connect(s: State, token: Token): State {
    var s := Teardown(s);
    s.(currentToken := Some(token), es := Some(s.created), open := s.open + {s.created}, created := s.created + 1)
  }

  function Doubled(backoff: int): int {
    if backoff * 2 < MAX_BACKOFF then backoff * 2 else MAX_BACKOFF
  }

  predicate Enabled(s: State, a: Action) {
    match a
    case Opened(conn) => conn in s.open
    case Errored(conn) => 0 <= conn < s.created
    case Refreshed(_) => s.refreshesInFlight > 0
    case Fired(timer, _) => timer in s.timers
    case _ => true
  }

  function Next(s: State, a: Action): State
    requires Enabled(s, a)
  {
    match a
    case Mount(listener, token) =>
      var s := s.(listeners := s.listeners + {listener});
      if s.es.None? || s.currentToken != Some(token) then Connect(s, token) else s
    case Unmount(listener) =>
      var s := s.(listeners := s.listeners - {listener});
      if s.listeners == {} then Teardown(s) else s
    case Opened(_) => s.(backoff := MIN_BACKOFF)
    case Errored(conn) =>
      var s := s.(open := s.open - {conn});
      if s.es != Some(conn) then s
      else if s.refreshing then s.(es := None)
      else
        s.(es := None, refreshing := true, refreshesStarted := s.refreshesStarted + 1,
           refreshesInFlight := s.refreshesInFlight + 1)
    case Refreshed(renewed) =>
      s.(refreshing := false, refreshesInFlight := s.refreshesInFlight - 1, backoff := Doubled(s.backoff),
         reconnectTimer := Some(s.timersMade), timers := s.timers + {Timer(s.timersMade, renewed, s.backoff)},
         timersMade := s.timersMade + 1)
    case Fired(timer, stored) =>
      var s := s.(timers := s.timers - {timer});
      var latest := if timer.renewed.Some? then timer.renewed else stored;
      if latest.Some? then Connect(s, latest.value) else s
  }

  class SharedConnection {
    var es: Option<int>
    var currentToken: Option<Token>
    var reconnectTimer: Option<int>
    var backoff: int
    var refreshing: bool
    var listeners: set<int>
    // The browser's side.
    var created: int
    var open: set<int>
    var timersMade: int
    var timers: set<Timer>
    var refreshesStarted: int
    var refreshesInFlight: int

    function GetState(): State
      reads this
    {
      State(es, currentToken, reconnectTimer, backoff, refreshing, listeners, created, open, timersMade, timers,
            refreshesStarted, refreshesInFlight)
    }

    constructor ()
      ensures GetState() == INITIAL
    {
      es, currentToken, reconnectTimer, backoff, refreshing, listeners := None, None, None, 1000, false, {};
      created, open, timersMade, timers, refreshesStarted, refreshesInFlight := 0, {}, 0, {}, 0, 0;
    }

    method DoTeardown()
      modifies this
      ensures GetState() == Teardown(old(GetState()))
    {
      if reconnectTimer.Some? {
        timers := Without(timers, reconnectTimer.value);
        reconnectTimer := None;
      }
      if es.Some? {
        open := open - {es.value};
      }
      es := None;
      currentToken := None;
    }

    method DoConnect(token: Token)
      modifies this
      ensures GetState() == Connect(old(GetState()), token)
    {
      DoTeardown();
      currentToken := Some(token);
      var conn := created;
      created := created + 1;
      open := open + {conn};
      es := Some(conn);
    }

    method OnMount(listener: int, token: Token)
      modifies this
      ensures GetState() == Next(old(GetState()), Mount(listener, token))
    {
      listeners := listeners + {listener};
      if es.None? || currentToken != Some(token) {
        DoConnect(token);
      }
    }

    method OnUnmount(listener: int)
      modifies this
      ensures GetState() == Next(old(GetState()), Unmount(listener))
    {
      listeners := listeners - {listener};
      if listeners == {} {
        DoTeardown();
      }
    }

    method OnOpen(conn: int)
      requires conn in open
      modifies this
      ensures GetState() == Next(old(GetState()), Opened(conn))
    {
      backoff := 1000;
    }

    method OnError(conn: int)
      requires 0 <= conn < created
      modifies this
      ensures GetState() == Next(old(GetState()), Errored(conn))
    {
      open := open - {conn};
      if es != Some(conn) {
        return;
      }
      es := None;
      if !refreshing {
        refreshing := true;
        refreshesStarted := refreshesStarted + 1;
        refreshesInFlight := refreshesInFlight + 1;
      }
    }

    method OnRefreshed(renewed: Option<Token>)
      requires refreshesInFlight > 0
      modifies this
      ensures GetState() == Next(old(GetState()), Refreshed(renewed))
    {
      refreshesInFlight := refreshesInFlight - 1;
      refreshing := false;
      var delay := backoff;
      backoff := if delay * 2 < 30000 then delay * 2 else 30000;
      timers := timers + {Timer(timersMade, renewed, delay)};
      reconnectTimer := Some(timersMade);
      timersMade := timersMade + 1;
    }

    method OnTimer(timer: Timer, stored: Option<Token>)
      requires timer in timers
      modifies this
      ensures GetState() == Next(old(GetState()), Fired(timer, stored))
    {
      timers := timers - {timer};
      var latest := if timer.renewed.Some? then timer.renewed else stored;
      if latest.Some? {
        DoConnect(latest.value);
      }
    }
  }

  // ---------- Every interleaving ----------

  ghost predicate IsRun(states: seq<State>, actions: seq<Action>) {
    && |states| == |actions| + 1 && states[0] == INITIAL
    && forall i :: 0 <= i < |actions| ==> Enabled(states[i], actions[i]) && states[i + 1] == Next(states[i], actions[i])
  }

  /** The values doubling goes through. */
  const BACKOFFS := {1000, 2000, 4000, 8000, 16000, 30000}

  ghost predicate Inv(s: State) {
    && s.open == (if s.es.Some? then {s.es.value} else {})
    && (s.es.Some? ==> 0 <= s.es.value < s.created && s.currentToken.Some?)
    && 0 <= s.created
    && s.refreshesInFlight == (if s.refreshing then 1 else 0)
    && s.refreshesStarted + (if s.es.Some? then 1 else 0) <= s.created
    && s.timersMade + s.refreshesInFlight == s.refreshesStarted
    && (forall t :: t in s.timers ==> t.id < s.timersMade)
    && s.backoff in BACKOFFS
  }

  lemma StepKeepsInv(s: State, a: Action)
    requires Inv(s) && Enabled(s, a)
    ensures Inv(Next(s, a))
  {
  }

  lemma {:induction false} RunKeepsInv(states: seq<State>, actions: seq<Action>, k: nat)
    requires IsRun(states, actions) && k <= |actions|
    ensures Inv(states[k])
  {
    if k > 0 {
      RunKeepsInv(states, actions, k - 1);
      StepKeepsInv(states[k - 1], actions[k - 1]);
    }
  }

  /** In every interleaving of mounts, unmounts, stale and fresh callbacks, refreshes and timers: at most one
      EventSource is open and it is the one in `es`, at most one refresh is in flight, and the backoff is one of six
      values between 1 s and 30 s. */
  lemma OneConnectionOneRefresh(states: seq<State>, actions: seq<Action>, k: nat)
    requires IsRun(states, actions) && k <= |actions|
    ensures forall conn :: conn in states[k].open <==> states[k].es == Some(conn)
    ensures 0 <= states[k].refreshesInFlight <= 1
    ensures (states[k].refreshesInFlight == 1) == states[k].refreshing
    ensures states[k].backoff in BACKOFFS && MIN_BACKOFF <= states[k].backoff <= MAX_BACKOFF
  {
    RunKeepsInv(states, actions, k);
  }

  /** What the shared connection is for: however many components there are and however many errors arrive, the refresh
      endpoint is called at most once per connection created, and every refresh leads to at most one timer. */
  lemma RefreshesAreBounded(states: seq<State>, actions: seq<Action>, k: nat)
    requires IsRun(states, actions) && k <= |actions|
    ensures states[k].timersMade <= states[k].refreshesStarted <= states[k].created
  {
    RunKeepsInv(states, actions, k);
  }

  /** Once the last component is gone and has torn the connection down, nothing is open until someone mounts or an old
      timer fires. */
  lemma LastUnmountCloses(s: State, listener: int)
    requires Inv(s) && s.listeners <= {listener}
    ensures var t := Next(s, Unmount(listener)); t.open == {} && t.es.None? && t.listeners == {}
  {
    assert s.listeners - {listener} == {};
  }

  // ---------- Which connections are opened, and when ----------

  /** Every action: a connection is opened exactly when a component mounts and there is none, or one for another
      token, and when a timer fires with a token to use. It is then the current one, for the mounted token, or for the
      fresh one if the refresh gave one, or else for the stored one. */
  lemma ConnectsExactlyWhen(s: State, a: Action)
    requires Inv(s) && Enabled(s, a)
    ensures var t := Next(s, a);
            && (t.created == s.created || t.created == s.created + 1)
            && (t.created == s.created + 1 <==>
                 || (a.Mount? && (s.es.None? || s.currentToken != Some(a.token)))
                 || (a.Fired? && (a.timer.renewed.Some? || a.stored.Some?)))
            && (t.created == s.created + 1 ==>
                 && t.es == Some(s.created) && s.created in t.open
                 && t.currentToken == if a.Mount? then Some(a.token)
                                      else if a.timer.renewed.Some? then a.timer.renewed else a.stored)
  {
  }

  /** A refresh is started exactly by the failure of the current connection while none is in flight; a stale callback
      only closes its own connection. */
  lemma RefreshesExactlyWhen(s: State, a: Action)
    requires Inv(s) && Enabled(s, a)
    ensures var t := Next(s, a);
            && (t.refreshesStarted == s.refreshesStarted || t.refreshesStarted == s.refreshesStarted + 1)
            && (t.refreshesStarted == s.refreshesStarted + 1 <==>
                 a.Errored? && s.es == Some(a.conn) && !s.refreshing)
            && (a.Errored? && s.es != Some(a.conn) ==> t == s)
  {
  }

  /** The pending timers, through every action: a finished refresh adds one; a timer that fires is gone; and a
      teardown, by the last unmount or by opening another connection, clears the one the module remembers and no
      other. */
  lemma TimersExactlyWhen(s: State, a: Action, timer: Timer)
    requires Inv(s) && Enabled(s, a)
    ensures var t := Next(s, a);
            var tornDown := t.created > s.created || (a.Unmount? && t.listeners == {});
            timer in t.timers <==>
              || (timer in s.timers && a != Fired(timer, if a.Fired? then a.stored else None)
                  && !(tornDown && s.reconnectTimer == Some(timer.id)))
              || (a.Refreshed? && timer == Timer(s.timersMade, a.renewed, s.backoff))
    ensures var t := Next(s, a);
            t.reconnectTimer == if t.created > s.created || (a.Unmount? && t.listeners == {}) then None
                                else if a.Refreshed? then Some(s.timersMade) else s.reconnectTimer
  {
  }

  /** How many refreshes have finished since a connection last opened. */
  function FailuresSince(actions: seq<Action>, k: nat): nat
    requires k <= |actions|
  {
    if k == 0 || actions[k - 1].Opened? then 0
    else FailuresSince(actions, k - 1) + if actions[k - 1].Refreshed? then 1 else 0
  }

  /** Over runs: the backoff is 1, 2, 4, 8, 16 s and then 30 s by the refreshes finished since a connection last
      opened, and that is the delay of the timer the next refresh arms. */
  lemma {:induction false} BackoffIsTheLadder(states: seq<State>, actions: seq<Action>, k: nat)
    requires IsRun(states, actions) && k <= |actions|
    ensures var n := FailuresSince(actions, k);
            states[k].backoff == if n < 5 then [1000, 2000, 4000, 8000, 16000][n] else 30000
    ensures k < |actions| && actions[k].Refreshed? ==>
              && states[k + 1].reconnectTimer == Some(states[k].timersMade)
              && exists timer :: timer in states[k + 1].timers && timer.id == states[k].timersMade
                                 && timer.renewed == actions[k].renewed && timer.delay == states[k].backoff
  {
    if k > 0 {
      BackoffIsTheLadder(states, actions, k - 1);
    }
    if k < |actions| && actions[k].Refreshed? {
      assert Timer(states[k].timersMade, actions[k].renewed, states[k].backoff) in states[k + 1].timers;
    }
  }

  /** Whether component `l` is mounted after the first `k` actions. */
  predicate Mounted(actions: seq<Action>, k: nat, l: int)
    requires k <= |actions|
  {
    k > 0 &&
    var a := actions[k - 1];
    if a.Mount? && a.listener == l then true
    else if a.Unmount? && a.listener == l then false
    else Mounted(actions, k - 1, l)
  }

  /** Over runs: the listeners are the mounted components; and an unmount that leaves some changes nothing else. */
  lemma {:induction false} ListenersAreTheMounted(states: seq<State>, actions: seq<Action>, k: nat, l: int)
    requires IsRun(states, actions) && k <= |actions|
    ensures l in states[k].listeners <==> Mounted(actions, k, l)
    ensures k < |actions| && actions[k].Unmount? && states[k + 1].listeners != {} ==>
              states[k + 1] == states[k].(listeners := states[k + 1].listeners)
  {
    if k > 0 {
      ListenersAreTheMounted(states, actions, k - 1, l);
    }
  }

  // ---------- One pending timer, exactly when ----------

  ghost predicate AtMostOne(timers: set<Timer>) {
    forall t, u :: t in timers && u in timers ==> t == u
  }

  /** From a state with at most one pending timer, an action leads to two exactly when a refresh finishes while a timer
      is pending: the module forgets the first one. */
  lemma TwoTimersExactlyWhen(s: State, a: Action)
    requires Inv(s) && Enabled(s, a) && AtMostOne(s.timers)
    ensures AtMostOne(Next(s, a).timers) <==> !(a.Refreshed? && s.timers != {})
  {
    if a.Refreshed? && s.timers != {} {
      var t :| t in s.timers;
      assert t in Next(s, a).timers && Timer(s.timersMade, a.renewed, s.backoff) in Next(s, a).timers;
    }
  }

  /** No refresh finishes while a timer is pending, among the first `k` actions. */
  ghost predicate RefreshesFindNoTimer(states: seq<State>, actions: seq<Action>, k: nat)
    requires k <= |actions| < |states|
  {
    forall i :: 0 <= i < k ==> !(actions[i].Refreshed? && states[i].timers != {})
  }

  ghost predicate AtMostOneThrough(states: seq<State>, k: nat)
    requires k < |states|
  {
    forall i :: 0 <= i <= k ==> AtMostOne(states[i].timers)
  }

  /** Over runs: there is never more than one pending timer if and only if no refresh finishes while one is pending. */
  lemma {:induction false} OneTimerExactlyWhen(states: seq<State>, actions: seq<Action>, k: nat)
    requires IsRun(states, actions) && k <= |actions|
    ensures AtMostOneThrough(states, k) <==> RefreshesFindNoTimer(states, actions, k)
  {
    if k > 0 {
      OneTimerExactlyWhen(states, actions, k - 1);
      RunKeepsInv(states, actions, k - 1);
      assert AtMostOneThrough(states, k) <==> AtMostOneThrough(states, k - 1) && AtMostOne(states[k].timers);
      if AtMostOne(states[k - 1].timers) {
        TwoTimersExactlyWhen(states[k - 1], actions[k - 1]);
      }
    }
  }

  // ---------- Reopening without a component, exactly when ----------

  /** The state a list of actions leads to, if all of them are possible. */
  function After(s: State, actions: seq<Action>): Option<State>
    decreases |actions|
  {
    if actions == [] then Some(s)
    else if Enabled(s, actions[0]) then After(Next(s, actions[0]), actions[1..])
    else None
  }

  predicate NoMount(actions: seq<Action>) {
    forall i :: 0 <= i < |actions| ==> !actions[i].Mount?
  }

  /** The actions open a new connection, though no component mounts. */
  ghost predicate Reopens(s: State, actions: seq<Action>) {
    && NoMount(actions) && After(s, actions).Some? && After(s, actions).value.created > s.created
  }

  /** Something is left that can lead to a connection: an open one that may fail, a refresh in flight, a timer. */
  predicate Stirs(s: State) {
    s.es.Some? || s.refreshing || s.timers != {}
  }

  lemma RestIsLasting(s: State, a: Action)
    requires Inv(s) && !Stirs(s) && Enabled(s, a) && !a.Mount?
    ensures !Stirs(Next(s, a)) && Next(s, a).created == s.created
  {
  }

  lemma {:induction false} NothingReopens(s: State, actions: seq<Action>)
    requires Inv(s) && !Stirs(s) && NoMount(actions) && After(s, actions).Some?
    ensures After(s, actions).value.created == s.created
    decreases |actions|
  {
    if actions != [] {
      RestIsLasting(s, actions[0]);
      StepKeepsInv(s, actions[0]);
      NothingReopens(Next(s, actions[0]), actions[1..]);
    }
  }

  lemma AfterFirst(s: State, a: Action, rest: seq<Action>)
    requires Enabled(s, a)
    ensures After(s, [a] + rest) == After(Next(s, a), rest)
  {
    assert ([a] + rest)[1..] == rest;
  }

  lemma TimerReopens(s: State, timer: Timer, token: Token) returns (actions: seq<Action>)
    requires Inv(s) && timer in s.timers
    ensures Reopens(s, actions)
  {
    var fire := Fired(timer, Some(token));
    actions := [fire];
    AfterFirst(s, fire, []);
    assert [fire] + [] == actions;
    assert Next(s, fire).created == s.created + 1;
  }

  lemma RefreshReopens(s: State, token: Token) returns (actions: seq<Action>)
    requires Inv(s) && s.refreshing
    ensures Reopens(s, actions)
  {
    var t := Next(s, Refreshed(None));
    StepKeepsInv(s, Refreshed(None));
    var more := TimerReopens(t, Timer(s.timersMade, None, s.backoff), token);
    actions := [Refreshed(None)] + more;
    AfterFirst(s, Refreshed(None), more);
  }

  lemma ErrorReopens(s: State, token: Token) returns (actions: seq<Action>)
    requires Inv(s) && s.es.Some?
    ensures Reopens(s, actions)
  {
    var error := Errored(s.es.value);
    var t := Next(s, error);
    StepKeepsInv(s, error);
    var more := RefreshReopens(t, token);
    actions := [error] + more;
    AfterFirst(s, error, more);
  }

  /** In any reachable state, the tab can open a connection without another component mounting if and only if a
      connection is open, a refresh is in flight or a timer is pending. The store may hold any token when a timer
      fires. */
  lemma ReopensExactlyWhen(s: State, token: Token)
    requires Inv(s)
    ensures Stirs(s) <==> exists actions :: Reopens(s, actions)
  {
    if s.timers != {} {
      var timer :| timer in s.timers;
      var actions := TimerReopens(s, timer, token);
    } else if s.refreshing {
      var actions := RefreshReopens(s, token);
    } else if s.es.Some? {
      var actions := ErrorReopens(s, token);
    } else {
      forall actions | Reopens(s, actions) ensures false {
        NothingReopens(s, actions);
      }
    }
  }

  /** So the last unmount ends it for good if and only if no refresh is in flight and the teardown leaves no timer: it
      clears only the timer armed last. */
  lemma LastUnmountIsFinalExactlyWhen(states: seq<State>, actions: seq<Action>, k: nat, listener: int, token: Token)
    requires IsRun(states, actions) && k <= |actions| && states[k].listeners <= {listener}
    ensures var s, t := states[k], Next(states[k], Unmount(listener));
            ((forall rest :: !Reopens(t, rest))
             <==> (!s.refreshing
                   && forall timer :: timer in s.timers ==> s.reconnectTimer == Some(timer.id)))
  {
    RunKeepsInv(states, actions, k);
    var s, t := states[k], Next(states[k], Unmount(listener));
    StepKeepsInv(s, Unmount(listener));
    LastUnmountCloses(s, listener);
    ReopensExactlyWhen(t, token);
    assert t.timers == if s.reconnectTimer.Some? then Without(s.timers, s.reconnectTimer.value) else s.timers by {
      assert s.listeners - {listener} == {};
    }
  }

  // ---------- Both are reachable ----------

  /** Two components, two failed connections, two refreshes: two timers are pending. */
  lemma TwoTimersCanCoexist(token: Token)
    ensures var end := After(INITIAL, [Mount(1, token)] + ([Errored(0)] + ([Mount(2, token)] + ([Refreshed(None)]
                             + ([Errored(1)] + [Refreshed(None)])))));
            end.Some? && end.value.timers == {Timer(0, None, 1000), Timer(1, None, 2000)}
  {
    var s1 := Next(INITIAL, Mount(1, token));
    var s2 := Next(s1, Errored(0));
    var s3 := Next(s2, Mount(2, token));
    var s4 := Next(s3, Refreshed(None));
    var s5 := Next(s4, Errored(1));
    var last := [Refreshed(None)];
    AfterFirst(s5, Refreshed(None), []);
    assert [Refreshed(None)] + [] == last;
    AfterFirst(s4, Errored(1), last);
    AfterFirst(s3, Refreshed(None), [Errored(1)] + last);
    AfterFirst(s2, Mount(2, token), [Refreshed(None)] + ([Errored(1)] + last));
    AfterFirst(s1, Errored(0), [Mount(2, token)] + ([Refreshed(None)] + ([Errored(1)] + last)));
    AfterFirst(INITIAL, Mount(1, token),
               [Errored(0)] + ([Mount(2, token)] + ([Refreshed(None)] + ([Errored(1)] + last))));
  }

  /** A connection fails and the last component goes; the refresh still in flight then finishes, and its timer opens a
      connection nobody listens to. */
  lemma ReconnectsWithoutListeners(token: Token) returns (s: State)
    ensures After(INITIAL, [Mount(1, token)] + ([Errored(0)] + [Unmount(1)])) == Some(s) && s.listeners == {}
    ensures Reopens(s, [Refreshed(None)] + [Fired(Timer(0, None, 1000), Some(token))])
  {
    var s1 := Next(INITIAL, Mount(1, token));
    var s2 := Next(s1, Errored(0));
    s := Next(s2, Unmount(1));
    assert s2.listeners - {1} == {};
    AfterFirst(s2, Unmount(1), []);
    assert [Unmount(1)] + [] == [Unmount(1)];
    AfterFirst(s1, Errored(0), [Unmount(1)]);
    AfterFirst(INITIAL, Mount(1, token), [Errored(0)] + [Unmount(1)]);
    OrphanReopens(s, token);
  }

  lemma OrphanReopens(s: State, token: Token)
    requires s.refreshesInFlight > 0 && s.timersMade == 0 && s.backoff == 1000
    ensures Reopens(s, [Refreshed(None)] + [Fired(Timer(0, None, 1000), Some(token))])
  {
    var fire := Fired(Timer(0, None, 1000), Some(token));
    var t := Next(s, Refreshed(None));
    AfterFirst(t, fire, []);
    assert [fire] + [] == [fire];
    AfterFirst(s, Refreshed(None), [fire]);
    assert Next(t, fire).created == s.created + 1;
  }
}
