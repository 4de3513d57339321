/** How often the retry loop of analytics/src/analytics/core/outbox.py delivers an event.

    Delivery is at-least-once: when the loop stops between the sender's confirmation and the removal of the row, because
    the process dies or because the removal itself raises, the row stays and is offered again. That is the only way:
    the theorems say, for every reachable state, exactly which confirmed rows will be offered again and how many
    confirmations there can be. */
module Deliveries {
  import opened Outboxes
  import opened RetryLoop
  import opened RetryPasses

  // ---------- Which rows can be sent again ----------

  /** The items that the pass under way will still offer to the sender. */
  function Upcoming<P>(phase: Phase<P>): seq<Item<P>> {
    match phase
    case Asleep => []
    case Sending(left, _) => left
    case Answered(left, _, o) => if Throttled(o) || left == [] then [] else left[1..]
  }

  /** A row that is to be sent, for the first time or again: the loop has it ahead of it, or the table has it and the
      loop is not about to remove it. */
  predicate Awaits<P>(s: State<P>, id: int) {
    id in IdsOf(Upcoming(s.phase)) || (id in Ids(s.rows) && !HoldsConfirmation(s, id))
  }

  /** A row that is to be sent again although it was confirmed. */
  predicate Exposed<P>(s: State<P>, id: int) {
    id in s.confirmed && Awaits(s, id)
  }

  /** The step keeps the loop from removing the row it holds the confirmation of. */
  predicate Interrupts<P>(s: State<P>, step: Step<P>, id: int) {
    (step.Restart? || step.SettleFails?) && id in Interrupted(s)
  }

  /** The row is what the loop offers to the sender now. */
  predicate Offers<P>(s: State<P>, id: int) {
    s.phase.Sending? && s.phase.left != [] && s.phase.left[0].id == id
  }

  lemma AnswerExposesNothing<P(!new)>(s: State<P>, step: Step<P>, cfg: Config, id: int)
    requires Inv(s) && Enabled(s, step) && step.Answer?
    ensures Exposed(Next(s, step, cfg), id) ==> Exposed(s, id)
  {
    var left := s.phase.left;
    if id in IdsOf(left[1..]) {
      var i :| 0 <= i < |left[1..]| && left[1..][i].id == id;
      assert left[i + 1].id == id;
    }
    assert left[0].id in IdsOf(left);
  }

  lemma AnswerAwaitsNothingNew<P(!new)>(s: State<P>, step: Step<P>, cfg: Config, id: int)
    requires Enabled(s, step) && step.Answer? && Awaits(Next(s, step, cfg), id)
    ensures Awaits(s, id)
  {
    var left := s.phase.left;
    if id in IdsOf(left[1..]) {
      var i :| 0 <= i < |left[1..]| && left[1..][i].id == id;
      assert left[i + 1].id == id;
    }
  }

  lemma PassAwaitsNothingNew<P(!new)>(s: State<P>, step: Step<P>, cfg: Config, id: int)
    requires Enabled(s, step) && step.StartPass? && Awaits(Next(s, step, cfg), id)
    ensures Awaits(s, id)
  {
    var due := Due(s.rows, step.now);
    KeepExact(s.rows, DueBy(step.now));
    if id in IdsOf(Items(due)) {
      var i :| 0 <= i < |due| && Items(due)[i].id == id;
      assert due[i] in s.rows;
      var k :| 0 <= k < |s.rows| && s.rows[k] == due[i];
      assert s.rows[k].id in Ids(s.rows);
    }
  }

  lemma SettleAwaitsNothingNew<P(!new)>(s: State<P>, step: Step<P>, cfg: Config, id: int)
    requires Enabled(s, step) && step.Settle? && Awaits(Next(s, step, cfg), id)
    ensures Awaits(s, id)
  {
    SettledIds(s.(clock := step.now), step.now);
  }

  lemma TableAwaitsNothingNew<P(!new)>(s: State<P>, step: Step<P>, cfg: Config, id: int)
    requires Inv(s) && (step.Insert? || step.Prune? || step.DeferAll? || step.DrainCount? || step.Tick?)
    requires Awaits(Next(s, step, cfg), id) && id < s.nextId
    ensures Awaits(s, id)
  {
    StepIds(s, step, cfg);
  }

  /** A queued row that is not to be sent comes to be sent through an interruption, and through nothing else. */
  lemma AwaitsExactlyByInterruption<P(!new)>(s: State<P>, step: Step<P>, cfg: Config, id: int)
    requires Inv(s) && Enabled(s, step) && id in s.queued && !Awaits(s, id)
    ensures Awaits(Next(s, step, cfg), id) <==> Interrupts(s, step, id)
  {
    if step.Restart? || step.SettleFails? {
    } else if Awaits(Next(s, step, cfg), id) {
      match step
      case Answer(_, _) => AnswerAwaitsNothingNew(s, step, cfg, id);
      case StartPass(_) => PassAwaitsNothingNew(s, step, cfg, id);
      case Settle(_) => SettleAwaitsNothingNew(s, step, cfg, id);
      case _ => TableAwaitsNothingNew(s, step, cfg, id);
    }
  }

  /** In particular one that was confirmed. */
  lemma ExposedExactlyByInterruption<P(!new)>(s: State<P>, step: Step<P>, cfg: Config, id: int)
    requires Inv(s) && Enabled(s, step) && !Exposed(s, id)
    ensures Exposed(Next(s, step, cfg), id) <==> Interrupts(s, step, id)
  {
    if step.Answer? {
      AnswerExposesNothing(s, step, cfg, id);
    } else if id in s.confirmed {
      AwaitsExactlyByInterruption(s, step, cfg, id);
    }
  }

  // ---------- How many confirmations there are ----------

  /** At most one confirmation, and one more for each interruption; none of them left over for a row that is still to be
      sent again. */
  predicate Bounded<P>(s: State<P>, id: int) {
    s.confirmations[id] <= s.interruptions[id] + if Exposed(s, id) then 0 else 1
  }

  /** A confirmation uses up the exposure of its row. */
  lemma ConfirmationKeepsBound<P(!new)>(s: State<P>, step: Step<P>, cfg: Config, id: int)
    requires Inv(s) && Enabled(s, step) && Bounded(s, id)
    requires step.Answer? && !step.reply.Raised? && AsOutcome(step.reply).delivered && Offers(s, id)
    ensures Bounded(Next(s, step, cfg), id)
  {
    var rest := s.phase.left[1..];
    forall i | 0 <= i < |rest| ensures rest[i].id != id {
      assert rest[i] == s.phase.left[i + 1];
    }
    assert s.phase.left[0].id in IdsOf(s.phase.left);
  }

  lemma StepKeepsBound<P(!new)>(s: State<P>, step: Step<P>, cfg: Config, id: int)
    requires Inv(s) && Enabled(s, step) && Bounded(s, id)
    ensures Bounded(Next(s, step, cfg), id)
  {
    if step.Answer? && !step.reply.Raised? && AsOutcome(step.reply).delivered && Offers(s, id) {
      ConfirmationKeepsBound(s, step, cfg, id);
    } else if !Exposed(s, id) {
      ExposedExactlyByInterruption(s, step, cfg, id);
    }
  }

  /** In every reachable state an event has been confirmed at most once, plus once for every time the removal of its row
      was lost; and one that is to be sent again has used none of that up. */
  lemma {:induction false} ConfirmedOncePlusInterruptions<P(!new)>(
      states: seq<State<P>>, steps: seq<Step<P>>, cfg: Config, k: nat, id: int)
    requires IsRun(states, steps, cfg) && k <= |steps|
    ensures Bounded(states[k], id)
  {
    if k > 0 {
      ConfirmedOncePlusInterruptions(states, steps, cfg, k - 1, id);
      RunKeepsInv(states, steps, cfg, k - 1);
      StepKeepsBound(states[k - 1], steps[k - 1], cfg, id);
    }
  }

  /** In every run: when a confirmed event is being offered again, its removal was lost at least as often as it has been
      confirmed. */
  lemma OfferedAgainWasInterrupted<P(!new)>(
      states: seq<State<P>>, steps: seq<Step<P>>, cfg: Config, k: nat, id: int)
    requires IsRun(states, steps, cfg) && k <= |steps|
    requires Offers(states[k], id) && id in states[k].confirmed
    ensures states[k].interruptions[id] >= states[k].confirmations[id] >= 1
  {
    RunKeepsInv(states, steps, cfg, k);
    ConfirmedOncePlusInterruptions(states, steps, cfg, k, id);
    assert states[k].phase.left[0].id in IdsOf(states[k].phase.left);
  }

  /** Exactly once, where no removal was lost: an event that is neither pending nor discarded has been confirmed once.
      */
  lemma ExactlyOnceWithoutInterruption<P(!new)>(
      states: seq<State<P>>, steps: seq<Step<P>>, cfg: Config, k: nat, id: int)
    requires IsRun(states, steps, cfg) && k <= |steps|
    requires id in states[k].queued && id !in Ids(states[k].rows) && id !in states[k].pruned
    requires states[k].interruptions[id] == 0
    ensures states[k].confirmations[id] == 1
  {
    RunKeepsInv(states, steps, cfg, k);
    ConfirmedOncePlusInterruptions(states, steps, cfg, k, id);
  }

  // ---------- Sent again, exactly when ----------

  /** A continuation in which nothing keeps the row from being removed. */
  ghost predicate Uninterrupted<P>(s: State<P>, rest: seq<Step<P>>, id: int, cfg: Config)
    decreases |rest|
  {
    rest == []
    || (Enabled(s, rest[0]) && !Interrupts(s, rest[0], id) && Uninterrupted(Next(s, rest[0], cfg), rest[1..], id, cfg))
  }

  ghost predicate OfferedAfter<P>(s: State<P>, rest: seq<Step<P>>, id: int, cfg: Config) {
    After(s, rest, cfg).Some? && Offers(After(s, rest, cfg).value, id)
  }

  lemma {:induction false} OnlyAwaitingIsOffered<P(!new)>(s: State<P>, rest: seq<Step<P>>, id: int, cfg: Config)
    requires Inv(s) && id in s.queued
    requires Uninterrupted(s, rest, id, cfg) && OfferedAfter(s, rest, id, cfg)
    ensures Awaits(s, id)
    decreases |rest|
  {
    if rest == [] {
      assert s.phase.left[0].id in IdsOf(s.phase.left);
    } else {
      StepKeepsInv(s, rest[0], cfg);
      StillQueued(s, rest[0], cfg, id);
      OnlyAwaitingIsOffered(Next(s, rest[0], cfg), rest[1..], id, cfg);
      if !Awaits(s, id) {
        AwaitsExactlyByInterruption(s, rest[0], cfg, id);
      }
    }
  }

  lemma StillQueued<P(!new)>(s: State<P>, step: Step<P>, cfg: Config, id: int)
    requires Enabled(s, step) && id in s.queued
    ensures id in Next(s, step, cfg).queued
  {
  }

  /** Steps of passes in which everything is delivered: none of them stops the loop short. */
  predicate Smooth<P>(steps: seq<Step<P>>) {
    forall i :: 0 <= i < |steps| ==>
      steps[i].StartPass? || steps[i].Settle? || (steps[i].Answer? && steps[i].reply == DELIVERED)
  }

  lemma {:induction false} SmoothIsUninterrupted<P>(s: State<P>, rest: seq<Step<P>>, id: int, cfg: Config)
    requires After(s, rest, cfg).Some? && Smooth(rest)
    ensures Uninterrupted(s, rest, id, cfg)
    decreases |rest|
  {
    if rest != [] {
      SmoothIsUninterrupted(Next(s, rest[0], cfg), rest[1..], id, cfg);
    }
  }

  lemma {:induction false} DeliveriesAreSmooth<P>(n: nat, t: real)
    ensures Smooth(DeliverySteps<P>(n, t))
  {
    if n > 0 {
      DeliveriesAreSmooth<P>(n - 1, t);
    }
  }

  lemma OfferFromHand<P(!new)>(s: State<P>, id: int, cfg: Config) returns (rest: seq<Step<P>>)
    requires s.phase.Sending? && id in IdsOf(s.phase.left)
    ensures Smooth(rest) && OfferedAfter(s, rest, id, cfg)
  {
    var j :| 0 <= j < |s.phase.left| && s.phase.left[j].id == id;
    rest := DeliverySteps(j, s.clock);
    DeliverSome(s, j, s.clock, cfg);
    DeliveriesAreSmooth<P>(j, s.clock);
  }

  lemma OfferFromTable<P(!new)>(s: State<P>, id: int, cfg: Config) returns (rest: seq<Step<P>>)
    requires s.phase.Asleep? && id in Ids(s.rows)
    ensures Smooth(rest) && OfferedAfter(s, rest, id, cfg)
  {
    var k :| 0 <= k < |s.rows| && s.rows[k].id == id;
    var start := StartPass(s.rows[k].nextAttemptAt);
    var due := Due(s.rows, start.now);
    KeepExact(s.rows, DueBy(start.now));
    assert s.rows[k] in due;
    var i :| 0 <= i < |due| && due[i] == s.rows[k];
    assert Items(due)[i].id == id;
    var more := OfferFromHand(Next(s, start, cfg), id, cfg);
    AfterFirst(s, start, more, cfg);
    rest := [start] + more;
  }

  lemma OfferAfterPass<P(!new)>(s: State<P>, id: int, cfg: Config) returns (rest: seq<Step<P>>)
    requires s.phase.Asleep? || (s.phase.Sending? && s.phase.left != [])
    requires id in Ids(s.rows) && id !in IdsOf(Upcoming(s.phase))
    ensures Smooth(rest) && OfferedAfter(s, rest, id, cfg)
  {
    if s.phase.Asleep? {
      rest := OfferFromTable(s, id, cfg);
    } else {
      var first := DeliverySteps(|s.phase.left|, s.clock);
      DeliverSome(s, |s.phase.left|, s.clock, cfg);
      DeliveriesAreSmooth<P>(|s.phase.left|, s.clock);
      assert s.phase.left[..|s.phase.left|] == s.phase.left;
      var more := OfferFromTable(After(s, first, cfg).value, id, cfg);
      AfterBoth(s, first, more, cfg);
      rest := first + more;
    }
  }

  lemma Offer<P(!new)>(s: State<P>, id: int, cfg: Config) returns (rest: seq<Step<P>>)
    requires Inv(s) && Awaits(s, id)
    ensures Smooth(rest) && OfferedAfter(s, rest, id, cfg)
  {
    if s.phase.Answered? {
      var settle := Settle(s.clock);
      var settled := Next(s, settle, cfg);
      SettledIds(s, s.clock);
      assert s == s.(clock := s.clock);
      var more;
      if id in IdsOf(Upcoming(s.phase)) {
        more := OfferFromHand(settled, id, cfg);
      } else {
        more := OfferAfterPass(settled, id, cfg);
      }
      AfterFirst(s, settle, more, cfg);
      rest := [settle] + more;
    } else if id in IdsOf(Upcoming(s.phase)) {
      rest := OfferFromHand(s, id, cfg);
    } else {
      rest := OfferAfterPass(s, id, cfg);
    }
  }

  /** From a reachable state, a queued event can be offered to the sender without a further interruption if and only if
      the loop has it ahead of it or the table has it and the loop is not about to remove it. */
  lemma OfferedExactlyWhen<P(!new)>(s: State<P>, id: int, cfg: Config)
    requires Inv(s) && id in s.queued
    ensures Awaits(s, id) <==> exists rest :: Uninterrupted(s, rest, id, cfg) && OfferedAfter(s, rest, id, cfg)
  {
    if Awaits(s, id) {
      var rest := Offer(s, id, cfg);
      SmoothIsUninterrupted(s, rest, id, cfg);
    }
    forall rest | Uninterrupted(s, rest, id, cfg) && OfferedAfter(s, rest, id, cfg) ensures Awaits(s, id) {
      OnlyAwaitingIsOffered(s, rest, id, cfg);
    }
  }

  /** So a confirmed event can be offered again if and only if an interruption has already left it exposed. */
  lemma OfferedAgainExactlyWhen<P(!new)>(s: State<P>, id: int, cfg: Config)
    requires Inv(s) && id in s.confirmed
    ensures Exposed(s, id) <==> exists rest :: Uninterrupted(s, rest, id, cfg) && OfferedAfter(s, rest, id, cfg)
  {
    OfferedExactlyWhen(s, id, cfg);
  }

  /** Both causes are real: whether the process dies or the removal raises, the confirmed row is due again. */
  lemma InterruptionResends<P(!new)>(payload: P, cfg: Config, stop: Step<P>)
    requires stop == Restart(0.0) || stop == SettleFails(0.0)
    ensures var steps := [Insert(payload, 0.0)] + ([StartPass(0.0)] + ([Answer(Legacy(true), 0.0)] + [stop]));
            var end := After(Initial(0.0), steps, cfg);
            end.Some? && Exposed(end.value, 1) && Due(end.value.rows, 0.0) == [Row(1, payload, 0, 0.0, 0.0)]
  {
    var row := Row(1, payload, 0, 0.0, 0.0);
    AllKept([row], DueBy(0.0));
    var queued := Next(Initial(0.0), Insert(payload, 0.0), cfg);
    assert queued.rows == [row];
    var sending := Next(queued, StartPass(0.0), cfg);
    assert sending.phase == Sending([Item(1, payload, 0)], 0.0);
    var answered := Next(sending, Answer(Legacy(true), 0.0), cfg);
    var end := Next(answered, stop, cfg);
    assert row.id in Ids([row]) by { assert [row][0].id == 1; }
    AfterFirst(answered, stop, [], cfg);
    assert [stop] + [] == [stop];
    AfterFirst(sending, Answer(Legacy(true), 0.0), [stop], cfg);
    AfterFirst(queued, StartPass(0.0), [Answer(Legacy(true), 0.0)] + [stop], cfg);
    AfterFirst(Initial(0.0), Insert(payload, 0.0), [StartPass(0.0)] + ([Answer(Legacy(true), 0.0)] + [stop]), cfg);
  }
}
