/** How long a deferral lasts: `defer_all` of analytics/src/analytics/core/outbox.py among the other steps.

    The server asks for silence until some time, and the queue is put off as a whole. Two later steps can bring an
    event forward again: a reschedule of an answer that was already on its way, and a new event, which is due at once.
    The theorems say exactly when the deferral holds. */
module Deferrals {
  import opened Options
  import opened Outboxes
  import opened RetryLoop

  /** Nothing in the table is due before `until`. */
  ghost predicate Silent<P(!new)>(rows: Table<P>, until: real) {
    forall t :: t < until ==> Due(rows, t) == []
  }

  ghost predicate AllFrom<P(!new)>(rows: Table<P>, until: real) {
    forall i :: 0 <= i < |rows| ==> rows[i].nextAttemptAt >= until
  }

  lemma SilentExactly<P(!new)>(rows: Table<P>, until: real)
    ensures Silent(rows, until) <==> AllFrom(rows, until)
  {
    if AllFrom(rows, until) {
      forall t | t < until ensures Due(rows, t) == [] {
        SkipPrefix(rows, DueBy(t), |rows|);
      }
    }
    if Silent(rows, until) {
      forall i | 0 <= i < |rows| ensures rows[i].nextAttemptAt >= until {
        var t := rows[i].nextAttemptAt;
        KeepExact(rows, DueBy(t));
        assert Matches(rows[i], DueBy(t));
        assert rows[i] in Due(rows, t);
      }
    }
  }

  /** The end of the deferral a step starts, if it starts one: `defer_all`, called by the client or by the loop. */
  function DefersUntil<P>(s: State<P>, step: Step<P>): Option<real>
    requires Enabled(s, step)
  {
    match step
    case DeferAll(seconds, now) => Some(now + AtLeastOne(seconds) as real)
    case Settle(now) =>
      if Throttled(s.phase.outcome) then Some(now + AtLeastOne(s.phase.outcome.retryAfter.value) as real) else None
    case _ => None
  }

  /** The step leaves a deferral alone: it queues nothing before its end, and it does not settle a plain failure of a
      pending row with a backoff that ends before it. */
  predicate Respects<P>(s: State<P>, step: Step<P>, until: real) {
    match step
    case Insert(_, now) => now >= until
    case Settle(now) =>
      s.phase.Answered? && s.phase.left != [] && !s.phase.outcome.delivered && !Throttled(s.phase.outcome)
      && s.phase.left[0].id in Ids(s.rows)
      ==> now + Backoff(s.phase.left[0].attempts) as real >= until
    case _ => true
  }

  lemma SomeFrom<P(!new)>(some: Table<P>, rows: Table<P>, until: real)
    requires SomeOf(some, rows) && AllFrom(rows, until)
    ensures AllFrom(some, until)
  {
  }

  lemma SettleRespects<P(!new)>(s: State<P>, now: real, until: real)
    requires s.phase.Answered? && s.phase.left != [] && AllFrom(s.rows, until)
    ensures AllFrom(Settled(s, now).rows, until) <==> Respects(s, Settle(now), until)
  {
    var first := s.phase.left[0];
    if s.phase.outcome.delivered {
      RemovesOnlyThatRow(s.rows, first.id);
      SomeFrom(Without(s.rows, first.id), s.rows, until);
    } else if !Throttled(s.phase.outcome) && first.id in Ids(s.rows) {
      var i :| 0 <= i < |s.rows| && s.rows[i].id == first.id;
      assert Settled(s, now).rows[i].nextAttemptAt == now + Backoff(first.attempts) as real;
    }
  }

  /** Step by step: a table in which nothing is due before `until` stays so if and only if the step respects it. */
  lemma DeferralHoldsExactlyWhen<P(!new)>(s: State<P>, step: Step<P>, cfg: Config, until: real)
    requires Inv(s) && Enabled(s, step) && Silent(s.rows, until)
    ensures Silent(Next(s, step, cfg).rows, until) <==> Respects(s, step, until)
  {
    var t := Next(s, step, cfg);
    SilentExactly(s.rows, until);
    SilentExactly(t.rows, until);
    match step
    case Insert(_, now) =>
      assert t.rows[|s.rows|].nextAttemptAt == now;
    case Prune(now) =>
      PrunedSome(s.rows, now, cfg.maxAge, cfg.maxRows, s.nextId);
      SomeFrom(t.rows, s.rows, until);
    case Settle(now) =>
      SettleRespects(s.(clock := now), now, until);
    case _ =>
  }

  lemma DeferralStarts<P(!new)>(s: State<P>, step: Step<P>, cfg: Config)
    requires Enabled(s, step) && DefersUntil(s, step).Some?
    ensures Silent(Next(s, step, cfg).rows, DefersUntil(s, step).value)
  {
    SilentExactly(Next(s, step, cfg).rows, DefersUntil(s, step).value);
  }

  /** Nothing is due before `until` in the states after `k`, up to `n`. */
  ghost predicate SilentThrough<P(!new)>(states: seq<State<P>>, until: real, k: nat, n: nat)
    requires n < |states|
  {
    forall j :: k < j <= n ==> Silent(states[j].rows, until)
  }

  /** Every step between those states respects the deferral. */
  ghost predicate RespectedThrough<P(!new)>(
      states: seq<State<P>>, steps: seq<Step<P>>, until: real, k: nat, n: nat)
    requires n <= |steps| < |states|
  {
    forall j :: k < j < n ==> Respects(states[j], steps[j], until)
  }

  /** Over runs: after a deferral until some time nothing is due before that time, up to any later point, if and only if
      every step up to there respects it. */
  lemma {:induction false} DeferralLastsExactlyWhen<P(!new)>(
      states: seq<State<P>>, steps: seq<Step<P>>, cfg: Config, k: nat, n: nat)
    requires IsRun(states, steps, cfg) && k < n <= |steps| && DefersUntil(states[k], steps[k]).Some?
    ensures SilentThrough(states, DefersUntil(states[k], steps[k]).value, k, n)
       <==> RespectedThrough(states, steps, DefersUntil(states[k], steps[k]).value, k, n)
    decreases n
  {
    var until := DefersUntil(states[k], steps[k]).value;
    if n == k + 1 {
      DeferralStarts(states[k], steps[k], cfg);
    } else {
      DeferralLastsExactlyWhen(states, steps, cfg, k, n - 1);
      OneMoreStep(states, steps, until, k, n);
      if Silent(states[n - 1].rows, until) {
        HoldsAt(states, steps, cfg, n - 1, until);
      }
    }
  }

  lemma HoldsAt<P(!new)>(states: seq<State<P>>, steps: seq<Step<P>>, cfg: Config, j: nat, until: real)
    requires IsRun(states, steps, cfg) && j < |steps| && Silent(states[j].rows, until)
    ensures Silent(states[j + 1].rows, until) <==> Respects(states[j], steps[j], until)
  {
    RunKeepsInv(states, steps, cfg, j);
    DeferralHoldsExactlyWhen(states[j], steps[j], cfg, until);
  }

  lemma OneMoreStep<P(!new)>(states: seq<State<P>>, steps: seq<Step<P>>, until: real, k: nat, n: nat)
    requires k + 1 < n <= |steps| < |states|
    ensures SilentThrough(states, until, k, n)
       <==> SilentThrough(states, until, k, n - 1) && Silent(states[n].rows, until)
    ensures SilentThrough(states, until, k, n - 1) ==> Silent(states[n - 1].rows, until)
    ensures RespectedThrough(states, steps, until, k, n)
       <==> RespectedThrough(states, steps, until, k, n - 1) && Respects(states[n - 1], steps[n - 1], until)
  {
  }

  // ---------- Both exceptions are reachable ----------

  /** A failure that was on its way when the server asked for 900 s of silence puts its row back at five seconds. */
  lemma LateFailureUndercuts<P(!new)>(payload: P, cfg: Config)
    ensures var steps := [Insert(payload, 0.0)] + ([StartPass(0.0)] + ([DeferAll(900, 0.0)]
                         + ([Answer(Legacy(false), 0.0)] + [Settle(0.0)])));
            var end := After(Initial(0.0), steps, cfg);
            end.Some? && end.value.rows == [Row(1, payload, 1, 5.0, 0.0)] && !Silent(end.value.rows, 900.0)
  {
    var row := Row(1, payload, 0, 0.0, 0.0);
    AllKept([row], DueBy(0.0));
    var s1 := Next(Initial(0.0), Insert(payload, 0.0), cfg);
    assert s1.rows == [row];
    var s2 := Next(s1, StartPass(0.0), cfg);
    assert s2.phase == Sending([Item(1, payload, 0)], 0.0);
    var s3 := Next(s2, DeferAll(900, 0.0), cfg);
    assert s3.rows == [row.(nextAttemptAt := 900.0)];
    var s4 := Next(s3, Answer(Legacy(false), 0.0), cfg);
    assert Backoff(0) == 5;
    var s5 := Next(s4, Settle(0.0), cfg);
    assert s5.rows == [Row(1, payload, 1, 5.0, 0.0)];
    AfterFirst(s4, Settle(0.0), [], cfg);
    var last: seq<Step<P>> := [Settle(0.0)];
    assert last + [] == last;
    AfterFirst(s3, Answer(Legacy(false), 0.0), [Settle(0.0)], cfg);
    AfterFirst(s2, DeferAll(900, 0.0), [Answer(Legacy(false), 0.0)] + [Settle(0.0)], cfg);
    AfterFirst(s1, StartPass(0.0), [DeferAll(900, 0.0)] + ([Answer(Legacy(false), 0.0)] + [Settle(0.0)]), cfg);
    AfterFirst(Initial(0.0), Insert(payload, 0.0),
               [StartPass(0.0)] + ([DeferAll(900, 0.0)] + ([Answer(Legacy(false), 0.0)] + [Settle(0.0)])), cfg);
    assert s5.rows[0].nextAttemptAt < 900.0;
    SilentExactly(s5.rows, 900.0);
  }

  /** An event queued during the silence is due at once. */
  lemma NewcomerUndercuts<P(!new)>(payload: P, cfg: Config)
    ensures var end := After(Initial(0.0), [DeferAll(900, 0.0)] + [Insert(payload, 0.0)], cfg);
            end.Some? && end.value.rows == [Row(1, payload, 0, 0.0, 0.0)] && !Silent(end.value.rows, 900.0)
  {
    var s1 := Next(Initial<P>(0.0), DeferAll(900, 0.0), cfg);
    assert s1.rows == [];
    var s2 := Next(s1, Insert(payload, 0.0), cfg);
    assert s2.rows == [Row(1, payload, 0, 0.0, 0.0)];
    AfterFirst(s1, Insert(payload, 0.0), [], cfg);
    assert [Insert(payload, 0.0)] + [] == [Insert(payload, 0.0)];
    AfterFirst(Initial(0.0), DeferAll(900, 0.0), [Insert(payload, 0.0)], cfg);
    assert s2.rows[0].nextAttemptAt < 900.0;
    SilentExactly(s2.rows, 900.0);
  }
}
