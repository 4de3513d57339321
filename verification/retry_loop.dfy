/** The background retry loop of analytics/src/analytics/core/outbox.py, `run_retry_loop`, and everything that happens
    around it.

    The loop suspends at every `await`, so other code runs between its steps: events are inserted, the caps are applied,
    the queue is deferred, the drop counter is drained, an outbox call fails, the process dies. The system is a state
    machine whose steps are the atomic pieces, one SQL transaction or one answer each; the sender's answers are
    arbitrary. */
module RetryLoop {
  import opened Options
  import opened Outboxes

  // ---------- What the sender answers ----------

  datatype SendOutcome = SendOutcome(delivered: bool, retryAfter: Option<int>)

  /** The sender's answer: the legacy boolean, a full outcome, or an exception. */
  datatype Reply = Legacy(ok: bool) | Full(outcome: SendOutcome) | Raised

  function AsOutcome(reply: Reply): SendOutcome
    requires !reply.Raised?
  {
    match reply
    case Full(outcome) => outcome
    case Legacy(ok) => SendOutcome(ok, None)
  }

  /** `if outcome.retry_after_seconds`: present and not zero. */
  predicate Throttled(o: SendOutcome) {
    !o.delivered && o.retryAfter.Some? && o.retryAfter.value != 0
  }

  // ---------- The system ----------

  /** Where the loop is: asleep, waiting for the sender to answer for the first of `left`, or holding that answer
      while the outbox call it leads to is still to be made. */
  datatype Phase<P> =
    | Asleep
    | Sending(left: seq<Item<P>>, started: real)
    | Answered(left: seq<Item<P>>, started: real, outcome: SendOutcome)

  /** The outbox, the loop and what has happened so far. The fields from `queued` on are a ledger no code reads: every
      payload ever queued, the ids the caps removed, the payload the sender confirmed for each id, how often it did, how
      often a confirmed row lost its removal, and the row counts since the process started. */
  datatype State<P> = State(
    rows: Table<P>, nextId: int, dropped: int, phase: Phase<P>, clock: real, lastFullPass: Option<real>,
    queued: map<int, P>, pruned: set<int>, confirmed: map<int, P>,
    confirmations: multiset<int>, interruptions: multiset<int>,
    found: int, added: int, removed: int, drained: int)

  datatype Config = Config(maxRows: int, maxAge: int)

  /** `Insert` and `Prune` are the two transactions of an enqueue; an enqueue whose prune fails is an `Insert` alone.
      `SettleFails` is the outbox call after an answer raising. `Tick` is anything that leaves the outbox and the loop
      alone. */
  datatype Step<P> =
    | Insert(payload: P, now: real)
    | Prune(now: real)
    | DeferAll(seconds: int, now: real)
    | StartPass(now: real)
    | Answer(reply: Reply, now: real)
    | Settle(now: real)
    | SettleFails(now: real)
    | DrainCount(now: real)
    | Restart(now: real)
    | Tick(now: real)

  function Ids<P>(rows: Table<P>): set<int> {
    set i | 0 <= i < |rows| :: rows[i].id
  }

  /** The phase once the first of `left` is dealt with: a pass that runs out of items is complete. */
  function Advance<P>(s: State<P>, left: seq<Item<P>>, started: real): State<P> {
    if left == [] then s.(phase := Asleep, lastFullPass := Some(started)) else s.(phase := Sending(left, started))
  }

  /** Applying the outbox call that the answer for the first item leads to. */
  function Settled<P>(s: State<P>, now: real): State<P>
    requires s.phase.Answered? && s.phase.left != []
  {
    var Answered(left, started, o) := s.phase;
    if o.delivered then
      var gone := if left[0].id in Ids(s.rows) then 1 else 0;
      Advance(s.(rows := Without(s.rows, left[0].id), removed := s.removed + gone), left[1..], started)
    else if Throttled(o) then
      s.(rows := Deferred(s.rows, now + AtLeastOne(o.retryAfter.value) as real), phase := Asleep)
    else
      Advance(
        s.(rows := Rescheduled(s.rows, left[0].id, left[0].attempts + 1, now + Backoff(left[0].attempts) as real)),
        left[1..], started)
  }

  /** The loop holds the confirmation of row `id` and has yet to remove it. */
  predicate HoldsConfirmation<P>(s: State<P>, id: int) {
    s.phase.Answered? && s.phase.outcome.delivered && s.phase.left != [] && s.phase.left[0].id == id
  }

  /** The row whose removal is lost when the loop stops short now. */
  function Interrupted<P>(s: State<P>): multiset<int> {
    if s.phase.Answered? && s.phase.outcome.delivered && s.phase.left != [] && s.phase.left[0].id in Ids(s.rows)
    then multiset{s.phase.left[0].id}
    else multiset{}
  }

  predicate Enabled<P>(s: State<P>, step: Step<P>) {
    match step
    case StartPass(_) => s.phase.Asleep?
    case Answer(_, _) => s.phase.Sending? && s.phase.left != []
    case Settle(_) => s.phase.Answered? && s.phase.left != []
    case SettleFails(_) => s.phase.Answered? && s.phase.left != []
    case _ => true
  }

  function Next<P>(s: State<P>, step: Step<P>, cfg: Config): State<P>
    requires Enabled(s, step)
  {
    var s := s.(clock := step.now);
    match step
    case Insert(payload, now) =>
      s.(rows := s.rows + [Row(s.nextId, payload, 0, now, now)], nextId := s.nextId + 1,
         queued := s.queued[s.nextId := payload], added := s.added + 1)
    case Prune(now) =>
      var rows := Pruned(s.rows, now, cfg.maxAge, cfg.maxRows);
      s.(rows := rows, dropped := s.dropped + |s.rows| - |rows|, pruned := s.pruned + (Ids(s.rows) - Ids(rows)))
    case DeferAll(seconds, now) =>
      s.(rows := Deferred(s.rows, now + AtLeastOne(seconds) as real))
    case StartPass(now) =>
      Advance(s, Items(Due(s.rows, now)), now)
    case Answer(reply, now) =>
      if reply.Raised? then s.(phase := Asleep)
      else
        var o := AsOutcome(reply);
        var item := s.phase.left[0];
        var answered := s.(phase := Answered(s.phase.left, s.phase.started, o));
        if o.delivered then
          answered.(confirmed := s.confirmed[item.id := item.payload],
                    confirmations := s.confirmations + multiset{item.id})
        else answered
    case Settle(now) => Settled(s, now)
    case SettleFails(now) =>
      s.(phase := Asleep, interruptions := s.interruptions + Interrupted(s))
    case DrainCount(now) => s.(drained := s.drained + s.dropped, dropped := 0)
    case Restart(now) =>
      s.(phase := Asleep, dropped := 0, interruptions := s.interruptions + Interrupted(s),
         found := |s.rows|, added := 0, removed := 0, drained := 0)
    case Tick(_) => s
  }

  function Initial<P>(now: real): State<P> {
    State([], 1, 0, Asleep, now, None, map[], {}, map[], multiset{}, multiset{}, 0, 0, 0, 0)
  }

  /** `states` is a run of the system: it starts empty and every state follows from the one before by a step. */
  ghost predicate IsRun<P(!new)>(states: seq<State<P>>, steps: seq<Step<P>>, cfg: Config) {
    && |states| == |steps| + 1
    && states[0] == Initial(states[0].clock)
    && Follows(states, steps, cfg)
  }

  ghost predicate Follows<P(!new)>(states: seq<State<P>>, steps: seq<Step<P>>, cfg: Config) {
    && |states| == |steps| + 1
    && forall i :: 0 <= i < |steps| ==> Enabled(states[i], steps[i]) && states[i + 1] == Next(states[i], steps[i], cfg)
  }

  /** The state a list of steps leads to; a step that is not enabled ends it. */
  function After<P>(s: State<P>, steps: seq<Step<P>>, cfg: Config): Option<State<P>>
    decreases |steps|
  {
    if steps == [] then Some(s)
    else if Enabled(s, steps[0]) then After(Next(s, steps[0], cfg), steps[1..], cfg)
    else None
  }

  lemma AfterFirst<P>(s: State<P>, step: Step<P>, rest: seq<Step<P>>, cfg: Config)
    requires Enabled(s, step)
    ensures After(s, [step] + rest, cfg) == After(Next(s, step, cfg), rest, cfg)
  {
    assert ([step] + rest)[1..] == rest;
  }

  lemma {:induction false} AfterBoth<P>(s: State<P>, first: seq<Step<P>>, second: seq<Step<P>>, cfg: Config)
    requires After(s, first, cfg).Some?
    ensures After(s, first + second, cfg) == After(After(s, first, cfg).value, second, cfg)
    decreases |first|
  {
    if first == [] {
      assert first + second == second;
    } else {
      AfterBoth(Next(s, first[0], cfg), first[1..], second, cfg);
      assert first + second == [first[0]] + (first[1..] + second);
      AfterFirst(s, first[0], first[1..] + second, cfg);
    }
  }

  // ---------- The invariant ----------

  /** An item the loop holds was read off a row: it carries the payload queued under its id. */
  ghost predicate Genuine<P(!new)>(s: State<P>, item: Item<P>) {
    item.id in s.queued && s.queued[item.id] == item.payload
  }

  function Left<P>(phase: Phase<P>): seq<Item<P>> {
    if phase.Asleep? then [] else phase.left
  }

  ghost predicate ItemsInOrder<P(!new)>(items: seq<Item<P>>) {
    forall i, j :: 0 <= i < j < |items| ==> items[i].id < items[j].id
  }

  ghost predicate Inv<P(!new)>(s: State<P>) {
    && IdsIncrease(s.rows) && IdsBelow(s.rows, s.nextId)
    && (forall id :: id in s.queued ==> id < s.nextId)
    && (forall i :: 0 <= i < |s.rows| ==> s.rows[i].id in s.queued && s.queued[s.rows[i].id] == s.rows[i].payload)
    && (forall i :: 0 <= i < |Left(s.phase)| ==> Genuine(s, Left(s.phase)[i]))
    && ItemsInOrder(Left(s.phase))
    && (s.phase.Asleep? || s.phase.left != [])
    && (s.phase.Answered? && s.phase.outcome.delivered ==> s.phase.left[0].id in s.confirmed)
    && (forall id :: id in s.confirmed ==> id in s.queued && s.confirmed[id] == s.queued[id])
    && (forall id :: id in s.confirmed <==> s.confirmations[id] > 0)
    && (forall id :: id in s.queued ==> id in Ids(s.rows) || id in s.pruned || id in s.confirmed)
    && s.found + s.added == |s.rows| + s.removed + s.drained + s.dropped
  }

  // ---------- What each statement does to the events ----------

  /** Some of the rows of `rows`, in the same order. */
  ghost predicate SomeOf<P(!new)>(some: Table<P>, rows: Table<P>) {
    forall i :: 0 <= i < |some| ==> some[i] in rows
  }

  /** The same events, whatever their schedule. */
  ghost predicate SameEvents<P(!new)>(xs: Table<P>, ys: Table<P>) {
    |xs| == |ys| && forall i :: 0 <= i < |xs| ==> xs[i].id == ys[i].id && xs[i].payload == ys[i].payload
  }

  lemma PrunedSome<P(!new)>(rows: Table<P>, now: real, maxAge: int, maxRows: int, bound: int)
    requires IdsIncrease(rows) && IdsBelow(rows, bound)
    ensures var kept := Pruned(rows, now, maxAge, maxRows);
            SomeOf(kept, rows) && IdsIncrease(kept) && IdsBelow(kept, bound) && |kept| <= |rows|
  {
    var w := CreatedSince(now - maxAge as real);
    KeepExact(rows, w);
    KeepInOrder(rows, w, bound);
  }

  lemma {:induction false} RemovesOnlyThatRow<P(!new)>(rows: Table<P>, id: int)
    ensures SomeOf(Without(rows, id), rows)
    ensures forall i :: 0 <= i < |rows| && rows[i].id != id ==> rows[i] in Without(rows, id)
    ensures Ids(Without(rows, id)) == Ids(rows) - {id}
  {
    KeepExact(rows, IdIsNot(id));
    var kept := Without(rows, id);
    forall x | x in Ids(kept) ensures x in Ids(rows) && x != id {
      var i :| 0 <= i < |kept| && kept[i].id == x;
      assert kept[i] in rows;
    }
    forall x | x in Ids(rows) && x != id ensures x in Ids(kept) {
      var i :| 0 <= i < |rows| && rows[i].id == x;
      assert rows[i] in kept;
    }
  }

  lemma IdsWithOneMore<P(!new)>(rows: Table<P>, r: Row<P>)
    ensures Ids(rows + [r]) == Ids(rows) + {r.id}
  {
    var all := rows + [r];
    assert all[|rows|].id == r.id;
    forall id | id in Ids(rows) ensures id in Ids(all) {
      var i :| 0 <= i < |rows| && rows[i].id == id;
      assert all[i].id == id;
    }
  }

  lemma IdsOfSame<P(!new)>(xs: Table<P>, ys: Table<P>)
    requires SameEvents(xs, ys)
    ensures Ids(xs) == Ids(ys)
    ensures IdsIncrease(ys) ==> IdsIncrease(xs)
  {
    assert forall i :: 0 <= i < |xs| ==> xs[i].id == ys[i].id;
  }

  lemma EventsKept<P(!new)>(s: State<P>, t: State<P>)
    requires Inv(s) && SameEvents(t.rows, s.rows) && t.nextId == s.nextId && t.queued == s.queued
    ensures Ids(t.rows) == Ids(s.rows) && IdsIncrease(t.rows) && IdsBelow(t.rows, t.nextId)
    ensures forall i :: 0 <= i < |t.rows| ==>
              t.rows[i].id in t.queued && t.queued[t.rows[i].id] == t.rows[i].payload
  {
    IdsOfSame(t.rows, s.rows);
  }

  // ---------- Every step keeps the invariant ----------

  lemma InsertKeeps<P(!new)>(s: State<P>, step: Step<P>, cfg: Config)
    requires Inv(s) && step.Insert?
    ensures Inv(Next(s, step, cfg))
  {
    var t := Next(s, step, cfg);
    IdsWithOneMore(s.rows, Row(s.nextId, step.payload, 0, step.now, step.now));
    forall id | id in t.queued ensures id in Ids(t.rows) || id in t.pruned || id in t.confirmed {
      if id != s.nextId {
        assert id in s.queued;
      }
    }
    forall i | 0 <= i < |Left(t.phase)| ensures Genuine(t, Left(t.phase)[i]) {
      assert Genuine(s, Left(s.phase)[i]);
    }
  }

  lemma PruneKeeps<P(!new)>(s: State<P>, step: Step<P>, cfg: Config)
    requires Inv(s) && step.Prune?
    ensures Inv(Next(s, step, cfg))
  {
    var t := Next(s, step, cfg);
    PrunedSome(s.rows, step.now, cfg.maxAge, cfg.maxRows, s.nextId);
    forall i | 0 <= i < |t.rows|
      ensures t.rows[i].id in t.queued && t.queued[t.rows[i].id] == t.rows[i].payload
    {
      assert t.rows[i] in s.rows;
    }
    forall i | 0 <= i < |Left(t.phase)| ensures Genuine(t, Left(t.phase)[i]) {
      assert Genuine(s, Left(s.phase)[i]);
    }
  }

  /** Whatever is settled, the items left are some of those held before. */
  lemma SettledLeft<P(!new)>(s: State<P>, now: real)
    requires Inv(s) && s.phase.Answered?
    ensures var left := Left(Settled(s, now).phase);
            ItemsInOrder(left) && forall i :: 0 <= i < |left| ==> Genuine(s, left[i])
    ensures Settled(s, now).phase.Asleep? || (Settled(s, now).phase.Sending? && Settled(s, now).phase.left != [])
  {
    var left := Left(Settled(s, now).phase);
    forall i | 0 <= i < |left| ensures Genuine(s, left[i]) {
      assert Genuine(s, Left(s.phase)[i + 1]);
    }
  }

  lemma SettleKeeps<P(!new)>(s: State<P>, now: real)
    requires Inv(s) && s.phase.Answered?
    ensures Inv(Settled(s, now))
  {
    SettledLeft(s, now);
    if s.phase.outcome.delivered {
      SettleDeliveredKeeps(s, now);
    } else {
      SettleFailedKeeps(s, now);
    }
  }

  lemma SettleDeliveredKeeps<P(!new)>(s: State<P>, now: real)
    requires Inv(s) && s.phase.Answered? && s.phase.outcome.delivered
    ensures Inv(Settled(s, now))
  {
    var t := Settled(s, now);
    var first := s.phase.left[0];
    SettledLeft(s, now);
    RemovesOnlyThatRow(s.rows, first.id);
    KeepInOrder(s.rows, IdIsNot(first.id), s.nextId);
    RemovesAtMostOne(s.rows, first.id);
    forall i | 0 <= i < |Left(t.phase)| ensures Genuine(t, Left(t.phase)[i]) {
      assert Genuine(s, Left(t.phase)[i]);
    }
  }

  lemma SettleFailedKeeps<P(!new)>(s: State<P>, now: real)
    requires Inv(s) && s.phase.Answered? && !s.phase.outcome.delivered
    ensures Inv(Settled(s, now))
  {
    var t := Settled(s, now);
    SettledLeft(s, now);
    assert SameEvents(t.rows, s.rows);
    EventsKept(s, t);
    forall i | 0 <= i < |Left(t.phase)| ensures Genuine(t, Left(t.phase)[i]) {
      assert Genuine(s, Left(t.phase)[i]);
    }
  }

  lemma RemovesAtMostOne<P(!new)>(rows: Table<P>, id: int)
    requires IdsIncrease(rows)
    ensures |Without(rows, id)| == |rows| - if id in Ids(rows) then 1 else 0
  {
    WithoutOne(rows, id);
  }

  lemma StartPassKeeps<P(!new)>(s: State<P>, step: Step<P>, cfg: Config)
    requires Inv(s) && Enabled(s, step) && step.StartPass?
    ensures Inv(Next(s, step, cfg))
  {
    var t := Next(s, step, cfg);
    var due := Due(s.rows, step.now);
    KeepExact(s.rows, DueBy(step.now));
    KeepInOrder(s.rows, DueBy(step.now), s.nextId);
    forall i | 0 <= i < |due| ensures Genuine(t, Items(due)[i]) {
      assert due[i] in s.rows;
    }
  }

  lemma AnswerKeeps<P(!new)>(s: State<P>, step: Step<P>, cfg: Config)
    requires Inv(s) && Enabled(s, step) && step.Answer?
    ensures Inv(Next(s, step, cfg))
  {
    var t := Next(s, step, cfg);
    assert Genuine(s, Left(s.phase)[0]);
    forall i | 0 <= i < |Left(t.phase)| ensures Genuine(t, Left(t.phase)[i]) {
      assert Genuine(s, Left(s.phase)[i]);
    }
  }

  lemma DeferKeeps<P(!new)>(s: State<P>, step: Step<P>, cfg: Config)
    requires Inv(s) && step.DeferAll?
    ensures Inv(Next(s, step, cfg))
  {
    var t := Next(s, step, cfg);
    assert SameEvents(t.rows, s.rows);
    EventsKept(s, t);
    forall i | 0 <= i < |Left(t.phase)| ensures Genuine(t, Left(t.phase)[i]) {
      assert Genuine(s, Left(s.phase)[i]);
    }
  }

  lemma StopKeeps<P(!new)>(s: State<P>, step: Step<P>, cfg: Config)
    requires Inv(s) && Enabled(s, step)
    requires step.SettleFails? || step.DrainCount? || step.Restart? || step.Tick?
    ensures Inv(Next(s, step, cfg))
  {
    var t := Next(s, step, cfg);
    forall i | 0 <= i < |Left(t.phase)| ensures Genuine(t, Left(t.phase)[i]) {
      assert Genuine(s, Left(s.phase)[i]);
    }
  }

  lemma ClockKeeps<P(!new)>(s: State<P>, now: real)
    requires Inv(s)
    ensures Inv(s.(clock := now))
  {
    var t := s.(clock := now);
    forall i | 0 <= i < |Left(t.phase)| ensures Genuine(t, Left(t.phase)[i]) {
      assert Genuine(s, Left(s.phase)[i]);
    }
  }

  lemma StepKeepsInv<P(!new)>(s: State<P>, step: Step<P>, cfg: Config)
    requires Inv(s) && Enabled(s, step)
    ensures Inv(Next(s, step, cfg))
  {
    if step.Insert? {
      InsertKeeps(s, step, cfg);
    } else if step.Prune? {
      PruneKeeps(s, step, cfg);
    } else if step.Settle? {
      ClockKeeps(s, step.now);
      SettleKeeps(s.(clock := step.now), step.now);
    } else if step.StartPass? {
      StartPassKeeps(s, step, cfg);
    } else if step.Answer? {
      AnswerKeeps(s, step, cfg);
    } else if step.DeferAll? {
      DeferKeeps(s, step, cfg);
    } else {
      StopKeeps(s, step, cfg);
    }
  }

  lemma {:induction false} RunKeepsInv<P(!new)>(states: seq<State<P>>, steps: seq<Step<P>>, cfg: Config, k: nat)
    requires IsRun(states, steps, cfg) && k <= |steps|
    ensures Inv(states[k])
  {
    if k > 0 {
      RunKeepsInv(states, steps, cfg, k - 1);
      StepKeepsInv(states[k - 1], steps[k - 1], cfg);
    }
  }

  // ---------- No silent loss ----------

  /** In every reachable state, after any mix of enqueues, passes, throttling, sender exceptions and restarts, every
      event ever queued is still in the table with its own payload, or was discarded by a cap, or the sender confirmed
      the delivery of that very payload. */
  lemma NoSilentLoss<P(!new)>(states: seq<State<P>>, steps: seq<Step<P>>, cfg: Config, k: nat, id: int)
    requires IsRun(states, steps, cfg) && k <= |steps| && id in states[k].queued
    ensures var s := states[k];
            || (exists i :: 0 <= i < |s.rows| && s.rows[i].id == id && s.rows[i].payload == s.queued[id])
            || id in s.pruned
            || (id in s.confirmed && s.confirmed[id] == s.queued[id])
  {
    RunKeepsInv(states, steps, cfg, k);
    var s := states[k];
    if id in Ids(s.rows) {
      var i :| 0 <= i < |s.rows| && s.rows[i].id == id;
      assert s.rows[i].payload == s.queued[id];
    }
  }

  /** Seen from a single step: a row stays, unless a prune discards it or the loop settles a confirmed delivery of that
      row's own id and payload. A late `remove` of a pruned id therefore deletes nothing. */
  lemma RowsLeaveOnlyAsTold<P(!new)>(s: State<P>, step: Step<P>, cfg: Config, i: nat)
    requires Inv(s) && Enabled(s, step) && i < |s.rows|
    ensures || s.rows[i].id in Ids(Next(s, step, cfg).rows)
            || (step.Prune? && s.rows[i].id in Next(s, step, cfg).pruned)
            || (step.Settle? && HoldsConfirmation(s, s.rows[i].id) && s.phase.left[0].payload == s.rows[i].payload)
  {
    StepIds(s, step, cfg);
    assert s.rows[i].id in Ids(s.rows);
    if step.Settle? {
      assert Genuine(s, Left(s.phase)[0]);
    }
  }

  lemma UpdatesKeepIds<P(!new)>(rows: Table<P>, until: real, id: int, attempts: nat)
    ensures Ids(Deferred(rows, until)) == Ids(rows)
    ensures Ids(Rescheduled(rows, id, attempts, until)) == Ids(rows)
  {
    IdsOfSame(Deferred(rows, until), rows);
    IdsOfSame(Rescheduled(rows, id, attempts, until), rows);
  }

  /** The ids a settled answer leaves in the table. */
  lemma SettledIds<P(!new)>(s: State<P>, now: real)
    requires s.phase.Answered? && s.phase.left != []
    ensures Ids(Settled(s, now).rows)
         == if s.phase.outcome.delivered then Ids(s.rows) - {s.phase.left[0].id} else Ids(s.rows)
  {
    var first := s.phase.left[0];
    if s.phase.outcome.delivered {
      RemovesOnlyThatRow(s.rows, first.id);
    } else if Throttled(s.phase.outcome) {
      UpdatesKeepIds(s.rows, now + AtLeastOne(s.phase.outcome.retryAfter.value) as real, 0, 0);
    } else {
      UpdatesKeepIds(s.rows, now + Backoff(first.attempts) as real, first.id, first.attempts + 1);
    }
  }

  /** The ids any step leaves in the table: only an insert adds one, and it is new. */
  lemma StepIds<P(!new)>(s: State<P>, step: Step<P>, cfg: Config)
    requires Inv(s) && Enabled(s, step)
    ensures var ids := Ids(Next(s, step, cfg).rows);
            match step
            case Insert(_, _) => ids == Ids(s.rows) + {s.nextId}
            case Prune(_) => ids <= Ids(s.rows)
            case Settle(_) =>
              ids == if s.phase.outcome.delivered then Ids(s.rows) - {s.phase.left[0].id} else Ids(s.rows)
            case _ => ids == Ids(s.rows)
  {
    match step
    case Insert(payload, now) =>
      IdsWithOneMore(s.rows, Row(s.nextId, payload, 0, now, now));
    case Prune(now) =>
      PrunedSome(s.rows, now, cfg.maxAge, cfg.maxRows, s.nextId);
      SomeHaveIds(Pruned(s.rows, now, cfg.maxAge, cfg.maxRows), s.rows);
    case DeferAll(seconds, now) =>
      UpdatesKeepIds(s.rows, now + AtLeastOne(seconds) as real, 0, 0);
    case Settle(now) =>
      SettledIds(s.(clock := now), now);
    case _ =>
  }

  /** Ids are never reused: an id that has left the table never comes back, so nothing can be mistaken for it. */
  lemma IdsNeverReturn<P(!new)>(s: State<P>, step: Step<P>, cfg: Config, id: int)
    requires Inv(s) && Enabled(s, step) && id < s.nextId && id !in Ids(s.rows)
    ensures id !in Ids(Next(s, step, cfg).rows)
  {
    StepIds(s, step, cfg);
  }

  lemma SomeHaveIds<P(!new)>(some: Table<P>, rows: Table<P>)
    requires SomeOf(some, rows)
    ensures Ids(some) <= Ids(rows)
  {
    forall id | id in Ids(some) ensures id in Ids(rows) {
      var i :| 0 <= i < |some| && some[i].id == id;
      assert some[i] in rows;
    }
  }

  /** Conservation between restarts: rows found at the start plus rows queued since are the rows pending, plus the rows
      whose confirmed delivery was settled, plus the drop counts already reported, plus the counter not yet reported. */
  lemma Conservation<P(!new)>(states: seq<State<P>>, steps: seq<Step<P>>, cfg: Config, k: nat)
    requires IsRun(states, steps, cfg) && k <= |steps|
    ensures var s := states[k]; s.found + s.added == |s.rows| + s.removed + s.drained + s.dropped
  {
    RunKeepsInv(states, steps, cfg, k);
  }

  // ---------- What each answer makes the loop do ----------

  /** A wait the server asks for is honoured: settling it stops the pass, and puts every row off to the end of the wait
      without counting an attempt. */
  lemma WaitIsHonoured<P(!new)>(s: State<P>, w: int, now: real, cfg: Config)
    requires Enabled(s, Settle(now)) && s.phase.outcome == SendOutcome(false, Some(w)) && w >= 1
    ensures var t := Next(s, Settle(now), cfg);
            t.phase.Asleep? && AllPutOff(s.rows, t.rows, now + w as real) && t.lastFullPass == s.lastFullPass
  {
  }

  /** From the answer to its settling. */
  lemma AnsweredWaitIsHonoured<P(!new)>(s: State<P>, w: int, now: real, later: real, cfg: Config)
    requires Enabled(s, Answer(Full(SendOutcome(false, Some(w))), now)) && w >= 1
    ensures var t := Next(s, Answer(Full(SendOutcome(false, Some(w))), now), cfg);
            Enabled(t, Settle(later))
            && var u := Next(t, Settle(later), cfg); u.phase.Asleep? && AllPutOff(s.rows, u.rows, later + w as real)
  {
    var t := Next(s, Answer(Full(SendOutcome(false, Some(w))), now), cfg);
    WaitIsHonoured(t, w, later, cfg);
  }

  /** A plain failure counts as an attempt of the offered row, puts off that row alone, and the pass goes on with the
      other items. */
  lemma FailureIsItsRowsOwn<P(!new)>(s: State<P>, now: real, cfg: Config)
    requires Enabled(s, Settle(now))
    requires s.phase.outcome == SendOutcome(false, None) || s.phase.outcome == SendOutcome(false, Some(0))
    ensures var t, item := Next(s, Settle(now), cfg), s.phase.left[0];
            OnlyRetried(s.rows, t.rows, item.id, item.attempts, now) && Left(t.phase) == s.phase.left[1..]
  {
    BackoffTable(s.phase.left[0].attempts);
  }

  /** A delivery takes away the offered row alone, and the pass goes on with the other items. */
  lemma DeliveryRemovesItsRow<P(!new)>(s: State<P>, now: real, cfg: Config)
    requires Enabled(s, Settle(now)) && s.phase.outcome.delivered
    ensures var t, item := Next(s, Settle(now), cfg), s.phase.left[0];
            (forall r :: r in t.rows <==> r in s.rows && r.id != item.id) && Left(t.phase) == s.phase.left[1..]
  {
    KeepExact(s.rows, IdIsNot(s.phase.left[0].id));
  }

  /** How the loop reads the sender's answer: `True` and `False` of the old kind, or an outcome as it is. */
  lemma AnswersAreKept<P(!new)>(s: State<P>, reply: Reply, now: real, cfg: Config)
    requires Enabled(s, Answer(reply, now))
    ensures var t := Next(s, Answer(reply, now), cfg);
            && t.rows == s.rows
            && (reply == Raised ==> t.phase.Asleep?)
            && (reply == Legacy(true) ==> t.phase == Answered(s.phase.left, s.phase.started, SendOutcome(true, None)))
            && (reply == Legacy(false) ==> t.phase == Answered(s.phase.left, s.phase.started, SendOutcome(false, None)))
            && (reply.Full? ==> t.phase == Answered(s.phase.left, s.phase.started, reply.outcome))
  {
  }
}
