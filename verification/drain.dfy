/** How soon the event queue of analytics/src/analytics/core/outbox.py drains once the server is back.

    The backoff is at most 300 s, the server's deferrals are clamped to 900 s, so no row is ever put off further than
    900 s. The drain bound says what follows: from which moments T a delivering sender is certain to have emptied the
    queue once a pass that started at T + 900 s or later is complete. */
module Draining {
  import opened Options
  import opened Outboxes
  import opened RetryLoop
  import opened RetryPasses

  /** The longest deferral the server can ask for, as vms_client.py clamps it. */
  const MAX_RETRY_AFTER_SECONDS := 900

  // ---------- Nothing is put off for longer ----------

  /** A step that honours the clamp and whose clock does not run backwards. */
  predicate Timely<P>(s: State<P>, step: Step<P>) {
    && s.clock <= step.now
    && (step.DeferAll? ==> step.seconds <= MAX_RETRY_AFTER_SECONDS)
    && (step.Answer? ==> Clamped(step.reply))
  }

  predicate Clamped(reply: Reply) {
    reply.Raised? ||
    var o := AsOutcome(reply); o.retryAfter.None? || o.retryAfter.value <= MAX_RETRY_AFTER_SECONDS
  }

  ghost predicate WithinReach<P(!new)>(s: State<P>) {
    && DueWithin(s.rows, s.clock + MAX_RETRY_AFTER_SECONDS as real)
    && (s.phase.Answered? ==> Clamped(Full(s.phase.outcome)))
    && (s.phase.Asleep? || (s.phase.left != [] && s.phase.started <= s.clock))
    && (s.lastFullPass.Some? ==> s.lastFullPass.value <= s.clock)
  }

  lemma DueWithinSome<P(!new)>(some: Table<P>, rows: Table<P>, horizon: real)
    requires SomeOf(some, rows) && DueWithin(rows, horizon)
    ensures DueWithin(some, horizon)
  {
  }

  lemma SettleStaysWithinReach<P(!new)>(s: State<P>, step: Step<P>, cfg: Config)
    requires Inv(s) && Enabled(s, step) && Timely(s, step) && WithinReach(s) && step.Settle?
    ensures DueWithin(Next(s, step, cfg).rows, step.now + MAX_RETRY_AFTER_SECONDS as real)
  {
    var t := Next(s, step, cfg);
    BackoffBounds(0, s.phase.left[0].attempts);
    if s.phase.outcome.delivered {
      RemovesOnlyThatRow(s.rows, s.phase.left[0].id);
      DueWithinSome(t.rows, s.rows, s.clock + MAX_RETRY_AFTER_SECONDS as real);
    }
  }

  lemma PruneStaysWithinReach<P(!new)>(s: State<P>, step: Step<P>, cfg: Config)
    requires Inv(s) && Timely(s, step) && WithinReach(s) && step.Prune?
    ensures DueWithin(Next(s, step, cfg).rows, step.now + MAX_RETRY_AFTER_SECONDS as real)
  {
    PrunedSome(s.rows, step.now, cfg.maxAge, cfg.maxRows, s.nextId);
    DueWithinSome(Next(s, step, cfg).rows, s.rows, s.clock + MAX_RETRY_AFTER_SECONDS as real);
  }

  lemma TableStaysWithinReach<P(!new)>(s: State<P>, step: Step<P>, cfg: Config)
    requires Enabled(s, step) && Timely(s, step) && WithinReach(s) && !step.Prune? && !step.Settle?
    ensures DueWithin(Next(s, step, cfg).rows, step.now + MAX_RETRY_AFTER_SECONDS as real)
  {
  }

  /** The loop's side of the invariant: what it holds respects the clamp, and its passes started in the past. */
  lemma StepKeepsPassesPast<P(!new)>(s: State<P>, step: Step<P>, cfg: Config)
    requires Inv(s) && Enabled(s, step) && Timely(s, step) && WithinReach(s)
    ensures var t := Next(s, step, cfg);
            && (t.phase.Answered? ==> Clamped(Full(t.phase.outcome)))
            && (t.phase.Asleep? || (t.phase.left != [] && t.phase.started <= t.clock))
            && (t.lastFullPass.Some? ==> t.lastFullPass.value <= t.clock)
  {
  }

  lemma RowsStayWithinReach<P(!new)>(s: State<P>, step: Step<P>, cfg: Config)
    requires Inv(s) && Enabled(s, step) && Timely(s, step) && WithinReach(s)
    ensures DueWithin(Next(s, step, cfg).rows, step.now + MAX_RETRY_AFTER_SECONDS as real)
  {
    if step.Prune? {
      PruneStaysWithinReach(s, step, cfg);
    } else if step.Settle? {
      SettleStaysWithinReach(s, step, cfg);
    } else {
      TableStaysWithinReach(s, step, cfg);
    }
  }

  lemma ClockIsNow<P>(s: State<P>, step: Step<P>, cfg: Config)
    requires Enabled(s, step)
    ensures Next(s, step, cfg).clock == step.now
  {
  }

  lemma StepStaysWithinReach<P(!new)>(s: State<P>, step: Step<P>, cfg: Config)
    requires Inv(s) && Enabled(s, step) && Timely(s, step) && WithinReach(s)
    ensures WithinReach(Next(s, step, cfg))
  {
    StepKeepsPassesPast(s, step, cfg);
    RowsStayWithinReach(s, step, cfg);
    ClockIsNow(s, step, cfg);
  }

  /** However the run goes, every pending row is always due within 900 s of the latest step. */
  lemma {:induction false} AlwaysDueWithin900<P(!new)>(
      states: seq<State<P>>, steps: seq<Step<P>>, cfg: Config, k: nat)
    requires IsRun(states, steps, cfg) && k <= |steps|
    requires forall i :: 0 <= i < |steps| ==> Timely(states[i], steps[i])
    ensures WithinReach(states[k])
  {
    if k > 0 {
      AlwaysDueWithin900(states, steps, cfg, k - 1);
      RunKeepsInv(states, steps, cfg, k - 1);
      StepStaysWithinReach(states[k - 1], steps[k - 1], cfg);
    }
  }

  // ---------- While the sender delivers ----------

  /** The sender always delivers and nothing new is queued or deferred. Outbox calls may still fail, rows be pruned and
      the process restart. */
  predicate Quiet<P>(step: Step<P>) {
    match step
    case Insert(_, _) => false
    case DeferAll(_, _) => false
    case Answer(reply, _) => !reply.Raised? && AsOutcome(reply).delivered
    case _ => true
  }

  /** The loop holds a failure from before that can still put a pending row off: a throttling answer while the table has
      rows, or another failure of a row that the table has. */
  predicate Delays<P>(s: State<P>) {
    && s.phase.Answered? && !s.phase.outcome.delivered && s.phase.left != []
    && if Throttled(s.phase.outcome) then s.rows != [] else s.phase.left[0].id in Ids(s.rows)
  }

  /** A continuation with a delivering sender, in nondecreasing time. */
  ghost predicate Calm<P(!new)>(s: State<P>, rest: seq<Step<P>>, cfg: Config)
    decreases |rest|
  {
    rest == []
    || (Enabled(s, rest[0]) && Quiet(rest[0]) && Timely(s, rest[0]) && Calm(Next(s, rest[0], cfg), rest[1..], cfg))
  }

  /** Along this calm continuation a pass that started at `since` or later is completed, and yet a row is left. */
  ghost predicate LeavesARow<P(!new)>(s: State<P>, rest: seq<Step<P>>, since: real, cfg: Config) {
    && Calm(s, rest, cfg) && After(s, rest, cfg).Some?
    && var end := After(s, rest, cfg).value;
       end.lastFullPass.Some? && end.lastFullPass.value >= since && end.rows != []
  }

  ghost predicate LeavesARowAfter900<P(!new)>(s: State<P>, rest: seq<Step<P>>, cfg: Config) {
    LeavesARow(s, rest, s.clock + MAX_RETRY_AFTER_SECONDS as real, cfg)
  }

  /** What holds while all is quiet and nothing delays: no row is put off beyond `horizon`, and once a pass starts after
      that it holds an item for every row left. */
  ghost predicate Drains<P(!new)>(s: State<P>, horizon: real) {
    && DueWithin(s.rows, horizon)
    && !Delays(s)
    && (s.phase.Asleep? || s.phase.left != [])
    && (!s.phase.Asleep? && s.phase.started >= horizon ==> Covers(s.phase.left, s.rows))
    && (s.lastFullPass.Some? && s.lastFullPass.value >= horizon ==> s.rows == [])
  }

  lemma CoversSome<P(!new)>(left: seq<Item<P>>, some: Table<P>, rows: Table<P>)
    requires SomeOf(some, rows) && Covers(left, rows)
    ensures Covers(left, some)
  {
    forall i | 0 <= i < |some| ensures HasItem(left, some[i].id) {
      var k :| 0 <= k < |rows| && rows[k] == some[i];
      assert HasItem(left, rows[k].id);
    }
  }

  lemma PruneDrains<P(!new)>(s: State<P>, step: Step<P>, cfg: Config, horizon: real)
    requires Inv(s) && step.Prune? && Drains(s, horizon)
    ensures Drains(Next(s, step, cfg), horizon)
  {
    var t := Next(s, step, cfg);
    PrunedSome(s.rows, step.now, cfg.maxAge, cfg.maxRows, s.nextId);
    SomeHaveIds(t.rows, s.rows);
    DueWithinSome(t.rows, s.rows, horizon);
    if !s.phase.Asleep? && s.phase.started >= horizon {
      CoversSome(s.phase.left, t.rows, s.rows);
    }
  }

  /** Rescheduling a row that has gone changes nothing. */
  lemma AbsentIsNotRescheduled<P(!new)>(left: seq<Item<P>>, rows: Table<P>, attempts: nat, at: real)
    requires left != [] && left[0].id !in Ids(rows)
    ensures Rescheduled(rows, left[0].id, attempts, at) == rows
    ensures Covers(left, rows) ==> Covers(left[1..], rows)
    ensures Covers(left, rows) && |left| == 1 ==> rows == []
  {
    var id := left[0].id;
    assert forall i :: 0 <= i < |rows| ==> rows[i].id in Ids(rows);
    assert Rescheduled(rows, id, attempts, at) == rows;
    AllKept(rows, IdIsNot(id));
    if Covers(left, rows) {
      RemovalKeepsCover(left, rows);
    }
  }

  lemma SettleDrains<P(!new)>(s: State<P>, step: Step<P>, cfg: Config, horizon: real)
    requires Enabled(s, step) && step.Settle? && Drains(s, horizon)
    ensures Drains(Next(s, step, cfg), horizon)
  {
    var t := Next(s, step, cfg);
    var left := s.phase.left;
    if s.phase.outcome.delivered {
      RemovesOnlyThatRow(s.rows, left[0].id);
      DueWithinSome(t.rows, s.rows, horizon);
      if s.phase.started >= horizon {
        RemovalKeepsCover(left, s.rows);
      }
    } else if !Throttled(s.phase.outcome) {
      AbsentIsNotRescheduled(left, s.rows, left[0].attempts + 1, step.now + Backoff(left[0].attempts) as real);
    }
  }

  lemma QuietStepDrains<P(!new)>(s: State<P>, step: Step<P>, cfg: Config, horizon: real)
    requires Inv(s) && Enabled(s, step) && Quiet(step) && Drains(s, horizon)
    ensures Drains(Next(s, step, cfg), horizon)
  {
    match step
    case Prune(_) =>
      PruneDrains(s, step, cfg, horizon);
    case StartPass(now) =>
      if now >= horizon {
        AllDueAreCovered(s.rows, now);
      }
    case Settle(_) =>
      SettleDrains(s, step, cfg, horizon);
    case _ =>
  }

  lemma {:induction false} CalmDrains<P(!new)>(s: State<P>, rest: seq<Step<P>>, cfg: Config, horizon: real)
    requires Inv(s) && Drains(s, horizon) && Calm(s, rest, cfg)
    ensures After(s, rest, cfg).Some? && Drains(After(s, rest, cfg).value, horizon)
    decreases |rest|
  {
    if rest != [] {
      QuietStepDrains(s, rest[0], cfg, horizon);
      StepKeepsInv(s, rest[0], cfg);
      CalmDrains(Next(s, rest[0], cfg), rest[1..], cfg, horizon);
    }
  }

  // ---------- What a held failure can do ----------

  /** A calm step at time `t`. */
  predicate CalmAt<P>(step: Step<P>, t: real) {
    step.now == t && Quiet(step) && !step.DeferAll? && (step.Answer? ==> Clamped(step.reply))
  }

  ghost predicate AllCalmAt<P(!new)>(steps: seq<Step<P>>, t: real) {
    forall i :: 0 <= i < |steps| ==> CalmAt(steps[i], t)
  }

  lemma {:induction false} CalmAtIsCalm<P(!new)>(s: State<P>, rest: seq<Step<P>>, t: real, cfg: Config)
    requires After(s, rest, cfg).Some? && AllCalmAt(rest, t) && s.clock <= t
    ensures Calm(s, rest, cfg)
    decreases |rest|
  {
    if rest != [] {
      CalmStep(s, rest[0], t, cfg);
      CalmTail(rest, t);
      CalmAtIsCalm(Next(s, rest[0], cfg), rest[1..], t, cfg);
    }
  }

  lemma CalmStep<P(!new)>(s: State<P>, step: Step<P>, t: real, cfg: Config)
    requires Enabled(s, step) && CalmAt(step, t) && s.clock <= t
    ensures Quiet(step) && Timely(s, step) && Next(s, step, cfg).clock == t
  {
  }

  lemma CalmTail<P(!new)>(steps: seq<Step<P>>, t: real)
    requires steps != [] && AllCalmAt(steps, t)
    ensures AllCalmAt(steps[1..], t)
  {
  }

  lemma {:induction false} DeliveriesAreCalm<P(!new)>(n: nat, t: real)
    ensures AllCalmAt(DeliverySteps<P>(n, t), t)
  {
    if n > 0 {
      DeliveriesAreCalm<P>(n - 1, t);
    }
  }

  /** The row `id` is pending but not due at `t`. */
  ghost predicate PutOff<P(!new)>(rows: Table<P>, id: int, t: real) {
    id in Ids(rows) && forall i :: 0 <= i < |rows| && rows[i].id == id ==> rows[i].nextAttemptAt > t
  }

  /** Settling the failure at `t` leaves a row that is not due then, and that the rest of the pass does not touch. */
  lemma SettlePutsOff<P(!new)>(s: State<P>, t: real) returns (id: int)
    requires Inv(s) && Delays(s)
    ensures PutOff(Settled(s, t).rows, id, t) && id !in IdsOf(Left(Settled(s, t).phase))
  {
    var left := s.phase.left;
    SettledIds(s, t);
    if Throttled(s.phase.outcome) {
      id := s.rows[0].id;
    } else {
      id := left[0].id;
      BackoffBounds(0, left[0].attempts);
      forall j | 0 <= j < |left[1..]| ensures left[1..][j].id != id {
        assert left[1..][j] == left[j + 1];
      }
    }
  }

  /** Finishing the pass at hand delivers its items and leaves the row that was put off. */
  lemma FinishPass<P(!new)>(s: State<P>, id: int, t: real, cfg: Config) returns (rest: seq<Step<P>>)
    requires s.phase.Asleep? || (s.phase.Sending? && s.phase.left != [])
    requires PutOff(s.rows, id, t) && id !in IdsOf(Left(s.phase)) && s.clock == t
    ensures AllCalmAt(rest, t) && After(s, rest, cfg).Some?
    ensures var end := After(s, rest, cfg).value;
            && end.phase.Asleep? && end.clock == t && PutOff(end.rows, id, t)
            && (s.phase.Sending? ==> end.lastFullPass == Some(s.phase.started))
            && (s.phase.Asleep? ==> end == s)
  {
    if s.phase.Asleep? {
      rest := [];
    } else {
      var left := s.phase.left;
      rest := DeliverySteps(|left|, t);
      DeliverSome(s, |left|, t, cfg);
      DeliveriesAreCalm<P>(|left|, t);
      assert left[..|left|] == left;
      var end := After(s, rest, cfg).value;
      forall i | 0 <= i < |end.rows| && end.rows[i].id == id ensures end.rows[i].nextAttemptAt > t {
        var k :| 0 <= k < |s.rows| && s.rows[k] == end.rows[i];
      }
    }
  }

  /** A whole pass at `t` delivers everything due then and is complete, and the row that was put off is left. */
  lemma PassAt<P(!new)>(s: State<P>, id: int, t: real, cfg: Config) returns (rest: seq<Step<P>>)
    requires s.phase.Asleep? && PutOff(s.rows, id, t) && s.clock == t
    ensures AllCalmAt(rest, t) && After(s, rest, cfg).Some?
    ensures After(s, rest, cfg).value.lastFullPass == Some(t) && After(s, rest, cfg).value.rows != []
  {
    var due := Due(s.rows, t);
    KeepExact(s.rows, DueBy(t));
    forall i | 0 <= i < |due| ensures Items(due)[i].id != id {
      assert due[i] in s.rows && Matches(due[i], DueBy(t));
    }
    var started := Next(s, StartPass(t), cfg);
    var more := FinishPass(started, id, t, cfg);
    AfterFirst(s, StartPass(t), more, cfg);
    rest := [StartPass(t)] + more;
  }

  lemma HeldFailureLeavesARow<P(!new)>(s: State<P>, t: real, cfg: Config) returns (rest: seq<Step<P>>)
    requires Inv(s) && Delays(s) && s.clock <= t
    ensures LeavesARow(s, rest, t, cfg)
  {
    var settled := Next(s, Settle(t), cfg);
    var id := SettlePutsOff(s.(clock := t), t);
    var first := FinishPass(settled, id, t, cfg);
    var middle := After(settled, first, cfg).value;
    var second := PassAt(middle, id, t, cfg);
    AfterBoth(settled, first, second, cfg);
    AfterFirst(s, Settle(t), first + second, cfg);
    rest := [Settle(t)] + (first + second);
    assert AllCalmAt(rest, t);
    CalmAtIsCalm(s, rest, t, cfg);
  }

  // ---------- The drain bound ----------

  /** The drain bound, for any moment T of any run. Let the sender always deliver from T on and nothing be queued or
      deferred, however the rest goes. A completed pass that started at T + 900 s or later is certain to leave the queue
      empty if and only if the loop does not hold, at T, a failure that can still put a pending row off. */
  lemma DrainsExactlyWhen<P(!new)>(states: seq<State<P>>, steps: seq<Step<P>>, cfg: Config, k: nat)
    requires IsRun(states, steps, cfg) && k <= |steps|
    requires forall i :: 0 <= i < |steps| ==> Timely(states[i], steps[i])
    ensures !Delays(states[k])
       <==> forall rest :: !LeavesARowAfter900(states[k], rest, cfg)
  {
    var s := states[k];
    var horizon := s.clock + MAX_RETRY_AFTER_SECONDS as real;
    RunKeepsInv(states, steps, cfg, k);
    AlwaysDueWithin900(states, steps, cfg, k);
    if Delays(s) {
      var rest := HeldFailureLeavesARow(s, horizon, cfg);
      assert LeavesARowAfter900(s, rest, cfg);
    } else {
      forall rest | LeavesARowAfter900(s, rest, cfg) ensures false {
        CalmDrains(s, rest, cfg, horizon);
      }
    }
  }
}
