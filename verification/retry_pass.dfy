/** One pass of the retry loop, `run_retry_loop` in analytics/src/analytics/core/outbox.py, that nothing interrupts: as
    a loop over the due items, and as steps of the state machine. */
module RetryPasses {
  import opened Options
  import opened Outboxes
  import opened RetryLoop

  /** The table after a pass over `left` in which the k-th answer is `replies(k)`, settled at `clock(k + 1)`. */
  function PassRows<P>(rows: Table<P>, left: seq<Item<P>>, replies: nat -> Reply, clock: nat -> real, k: nat): Table<P>
    decreases |left|
  {
    if left == [] || replies(k).Raised? then rows
    else
      var o := AsOutcome(replies(k));
      if o.delivered then PassRows(Without(rows, left[0].id), left[1..], replies, clock, k + 1)
      else if Throttled(o) then Deferred(rows, clock(k + 1) + AtLeastOne(o.retryAfter.value) as real)
      else
        PassRows(
          Rescheduled(rows, left[0].id, left[0].attempts + 1, clock(k + 1) + Backoff(left[0].attempts) as real),
          left[1..], replies, clock, k + 1)
  }

  method RetryPass<P>(outbox: EventOutbox<P>, replies: nat -> Reply, clock: nat -> real)
    requires outbox.Valid()
    modifies outbox
    ensures outbox.Valid() && outbox.nextId == old(outbox.nextId) && outbox.dropped == old(outbox.dropped)
    ensures outbox.rows
         == PassRows(old(outbox.rows), Items(Due(old(outbox.rows), clock(0))), replies, clock, 0)
  {
    var due := outbox.ListDue(None, clock(0));
    var _ := SendAll(outbox, due, replies, clock);
  }

  /** The wait, in seconds, that the sender asks for with this answer; none is zero. */
  function WaitAsked(reply: Reply): int {
    if reply.Full? && !reply.outcome.delivered && reply.outcome.retryAfter.Some? then reply.outcome.retryAfter.value
    else 0
  }

  /** An exception or a wait that the sender asks for ends the pass. */
  predicate EndsThePass(reply: Reply) {
    reply.Raised? || WaitAsked(reply) != 0
  }

  ghost predicate SilentUntil<P>(rows: Table<P>, until: real) {
    forall i :: 0 <= i < |rows| ==> rows[i].nextAttemptAt >= until
  }

  /** Offers the due items to the sender one after the other; `offered` says how many. After a wait that the sender asks
      for no later item is offered, and nothing is due before its end. */
  method SendAll<P>(outbox: EventOutbox<P>, due: seq<Item<P>>, replies: nat -> Reply, clock: nat -> real)
    returns (offered: nat)
    requires outbox.Valid()
    modifies outbox
    ensures outbox.Valid() && outbox.nextId == old(outbox.nextId) && outbox.dropped == old(outbox.dropped)
    ensures outbox.rows == PassRows(old(outbox.rows), due, replies, clock, 0)
    ensures offered <= |due|
    ensures forall i :: 0 <= i < offered - 1 ==> !EndsThePass(replies(i))
    ensures offered < |due| ==> offered > 0 && EndsThePass(replies(offered - 1))
    ensures offered > 0 && WaitAsked(replies(offered - 1)) >= 1 ==>
              SilentUntil(outbox.rows, clock(offered) + WaitAsked(replies(offered - 1)) as real)
  {
    offered := 0;
    ghost var all := PassRows(outbox.rows, due, replies, clock, 0);
    assert due[0..] == due;
    while offered < |due|
      invariant 0 <= offered <= |due| && outbox.Valid()
      invariant outbox.nextId == old(outbox.nextId) && outbox.dropped == old(outbox.dropped)
      invariant PassRows(outbox.rows, due[offered..], replies, clock, offered) == all
      invariant forall i :: 0 <= i < offered ==> !EndsThePass(replies(i))
    {
      offered := offered + 1;
      var stop := OfferNext(outbox, due, replies, clock, offered - 1);
      if stop {
        return;
      }
    }
  }

  /** Item `k` is offered and its answer settled. */
  method OfferNext<P>(outbox: EventOutbox<P>, due: seq<Item<P>>, replies: nat -> Reply, clock: nat -> real, k: nat)
    returns (stop: bool)
    requires outbox.Valid() && k < |due|
    modifies outbox
    ensures outbox.Valid() && outbox.nextId == old(outbox.nextId) && outbox.dropped == old(outbox.dropped)
    ensures stop == EndsThePass(replies(k))
    ensures (if stop then outbox.rows else PassRows(outbox.rows, due[k + 1..], replies, clock, k + 1))
         == PassRows(old(outbox.rows), due[k..], replies, clock, k)
    ensures WaitAsked(replies(k)) >= 1 ==>
              SilentUntil(outbox.rows, clock(k + 1) + WaitAsked(replies(k)) as real)
  {
    PassRowsStep(outbox.rows, due, replies, clock, k);
    if replies(k).Raised? {
      return true;
    }
    stop := SettleAnswer(outbox, due[k], AsOutcome(replies(k)), clock(k + 1));
  }

  lemma PassRowsStep<P>(rows: Table<P>, due: seq<Item<P>>, replies: nat -> Reply, clock: nat -> real, k: nat)
    requires k < |due|
    ensures var item, now := due[k], clock(k + 1);
            PassRows(rows, due[k..], replies, clock, k)
            == if replies(k).Raised? then rows
               else
                 var o := AsOutcome(replies(k));
                 if o.delivered then PassRows(Without(rows, item.id), due[k + 1..], replies, clock, k + 1)
                 else if Throttled(o) then Deferred(rows, now + AtLeastOne(o.retryAfter.value) as real)
                 else PassRows(Rescheduled(rows, item.id, item.attempts + 1, now + Backoff(item.attempts) as real),
                               due[k + 1..], replies, clock, k + 1)
  {
    assert due[k..][1..] == due[k + 1..];
  }

  /** The outbox call that one answer leads to, and whether the pass ends with it. */
  method SettleAnswer<P>(outbox: EventOutbox<P>, item: Item<P>, outcome: SendOutcome, now: real) returns (stop: bool)
    requires outbox.Valid()
    modifies outbox
    ensures outbox.Valid() && outbox.nextId == old(outbox.nextId) && outbox.dropped == old(outbox.dropped)
    ensures stop == (WaitAsked(Full(outcome)) != 0) == Throttled(outcome)
    ensures outbox.rows
         == if outcome.delivered then Without(old(outbox.rows), item.id)
            else if stop then Deferred(old(outbox.rows), now + AtLeastOne(outcome.retryAfter.value) as real)
            else Rescheduled(old(outbox.rows), item.id, item.attempts + 1, now + Backoff(item.attempts) as real)
    ensures stop && WaitAsked(Full(outcome)) >= 1 ==>
              SilentUntil(outbox.rows, now + WaitAsked(Full(outcome)) as real)
  {
    if outcome.delivered {
      outbox.Remove(item.id);
      return false;
    }
    if outcome.retryAfter.Some? && outcome.retryAfter.value != 0 {
      outbox.DeferAll(outcome.retryAfter.value, now);
      return true;
    }
    outbox.Reschedule(item.id, item.attempts, now);
    stop := false;
  }

  /** The steps of such a pass. */
  function PassSteps<P>(left: seq<Item<P>>, replies: nat -> Reply, clock: nat -> real, k: nat): seq<Step<P>>
    decreases |left|
  {
    if left == [] then []
    else if replies(k).Raised? then [Answer(replies(k), clock(k + 1))]
    else
      [Answer(replies(k), clock(k + 1)), Settle(clock(k + 1))]
      + if Throttled(AsOutcome(replies(k))) then [] else PassSteps(left[1..], replies, clock, k + 1)
  }

  lemma {:induction false} PassStepsRun<P>(
      s: State<P>, left: seq<Item<P>>, replies: nat -> Reply, clock: nat -> real, k: nat, cfg: Config)
    requires if left == [] then s.phase.Asleep? else s.phase == Sending(left, clock(0))
    ensures var end := After(s, PassSteps(left, replies, clock, k), cfg);
            end.Some? && end.value.phase.Asleep? && end.value.rows == PassRows(s.rows, left, replies, clock, k)
    decreases |left|
  {
    var steps := PassSteps(left, replies, clock, k);
    if left != [] && !replies(k).Raised? {
      var answered := Next(s, steps[0], cfg);
      assert Enabled(s, steps[0]) && Enabled(answered, steps[1]);
      var settled := Next(answered, steps[1], cfg);
      assert steps[1..][1..] == steps[2..];
      assert After(s, steps, cfg) == After(settled, steps[2..], cfg);
      if !Throttled(AsOutcome(replies(k))) {
        PassStepsRun(settled, left[1..], replies, clock, k + 1, cfg);
        assert steps[2..] == PassSteps(left[1..], replies, clock, k + 1);
      } else {
        assert steps[2..] == [];
      }
    }
  }

  /** The loop body refines the state machine: what an uninterrupted pass leaves in the table is what the machine
      reaches by the pass's own steps. */
  lemma PassIsARun<P>(s: State<P>, replies: nat -> Reply, clock: nat -> real, cfg: Config)
    requires s.phase.Asleep?
    ensures var left := Items(Due(s.rows, clock(0)));
            var end := After(s, [StartPass(clock(0))] + PassSteps(left, replies, clock, 0), cfg);
            end.Some? && end.value.phase.Asleep? && end.value.rows == PassRows(s.rows, left, replies, clock, 0)
  {
    var left := Items(Due(s.rows, clock(0)));
    var started := Next(s, StartPass(clock(0)), cfg);
    PassStepsRun(started, left, replies, clock, 0, cfg);
    var steps := [StartPass(clock(0))] + PassSteps(left, replies, clock, 0);
    assert steps[1..] == PassSteps(left, replies, clock, 0);
  }

  // ---------- A sender that delivers ----------

  /** No row is due later than `horizon`. */
  ghost predicate DueWithin<P(!new)>(rows: Table<P>, horizon: real) {
    forall i :: 0 <= i < |rows| ==> rows[i].nextAttemptAt <= horizon
  }

  ghost predicate Covers<P(!new)>(left: seq<Item<P>>, rows: Table<P>) {
    forall i :: 0 <= i < |rows| ==> HasItem(left, rows[i].id)
  }

  ghost predicate HasItem<P(!new)>(left: seq<Item<P>>, id: int) {
    exists j :: 0 <= j < |left| && left[j].id == id
  }

  lemma AllDueAreCovered<P(!new)>(rows: Table<P>, now: real)
    requires DueWithin(rows, now)
    ensures Due(rows, now) == rows && Covers(Items(Due(rows, now)), rows)
  {
    AllKept(rows, DueBy(now));
    forall i | 0 <= i < |rows| ensures HasItem(Items(rows), rows[i].id) {
      assert Items(rows)[i].id == rows[i].id;
    }
  }

  lemma RemovalKeepsCover<P(!new)>(left: seq<Item<P>>, rows: Table<P>)
    requires left != [] && Covers(left, rows)
    ensures Covers(left[1..], Without(rows, left[0].id))
    ensures |left| == 1 ==> Without(rows, left[0].id) == []
  {
    var id := left[0].id;
    var kept := Without(rows, id);
    KeepExact(rows, IdIsNot(id));
    forall i | 0 <= i < |kept| ensures HasItem(left[1..], kept[i].id) {
      assert kept[i] in rows && kept[i].id != id;
      var k :| 0 <= k < |rows| && rows[k] == kept[i];
      assert HasItem(left, rows[k].id);
      var j :| 0 <= j < |left| && left[j].id == rows[k].id;
      assert left[1..][j - 1] == left[j];
    }
    NothingCovers(kept);
    assert |left| == 1 ==> left[1..] == [];
  }

  lemma NothingCovers<P(!new)>(rows: Table<P>)
    ensures rows != [] ==> !Covers([], rows)
  {
    if rows != [] {
      assert !HasItem<P>([], rows[0].id);
    }
  }

  lemma {:induction false} DeliveringPassRemoves<P(!new)>(
      rows: Table<P>, left: seq<Item<P>>, replies: nat -> Reply, clock: nat -> real, k: nat)
    requires Covers(left, rows)
    requires forall i: nat :: !replies(i).Raised? && AsOutcome(replies(i)).delivered
    ensures PassRows(rows, left, replies, clock, k) == []
    decreases |left|
  {
    if left == [] {
      NothingCovers(rows);
    } else {
      RemovalKeepsCover(left, rows);
      DeliveringPassRemoves(Without(rows, left[0].id), left[1..], replies, clock, k + 1);
    }
  }

  /** With every row due and a sender that always delivers, one pass empties the queue. */
  lemma DeliveringPassEmpties<P(!new)>(rows: Table<P>, replies: nat -> Reply, clock: nat -> real)
    requires DueWithin(rows, clock(0))
    requires forall i: nat :: !replies(i).Raised? && AsOutcome(replies(i)).delivered
    ensures PassRows(rows, Items(Due(rows, clock(0))), replies, clock, 0) == []
  {
    AllDueAreCovered(rows, clock(0));
    DeliveringPassRemoves(rows, Items(rows), replies, clock, 0);
  }

  // ---------- Delivering some of the items in hand ----------

  const DELIVERED := Full(SendOutcome(true, None))

  /** The steps that deliver and settle `n` items at time `t`. */
  function DeliverySteps<P>(n: nat, t: real): seq<Step<P>> {
    if n == 0 then [] else [Answer(DELIVERED, t), Settle(t)] + DeliverySteps(n - 1, t)
  }

  function IdsOf<P>(items: seq<Item<P>>): set<int> {
    set i | 0 <= i < |items| :: items[i].id
  }

  /** Delivering the first item: its row is off the table, and the loop goes on with the rest or has completed the
      pass. */
  lemma DeliverOne<P(!new)>(s: State<P>, more: seq<Step<P>>, t: real, cfg: Config) returns (next: State<P>)
    requires s.phase.Sending? && s.phase.left != []
    ensures After(s, [Answer(DELIVERED, t), Settle(t)] + more, cfg) == After(next, more, cfg)
    ensures next.phase == if |s.phase.left| == 1 then Asleep else Sending(s.phase.left[1..], s.phase.started)
    ensures |s.phase.left| == 1 ==> next.lastFullPass == Some(s.phase.started)
    ensures Ids(next.rows) == Ids(s.rows) - {s.phase.left[0].id} && SomeOf(next.rows, s.rows) && next.clock == t
    ensures forall id :: id in s.confirmed ==> id in next.confirmed
  {
    var answered := Next(s, Answer(DELIVERED, t), cfg);
    next := Next(answered, Settle(t), cfg);
    assert [Answer(DELIVERED, t), Settle(t)] + more == [Answer(DELIVERED, t)] + ([Settle(t)] + more);
    AfterFirst(s, Answer(DELIVERED, t), [Settle(t)] + more, cfg);
    AfterFirst(answered, Settle(t), more, cfg);
    RemovesOnlyThatRow(s.rows, s.phase.left[0].id);
  }

  /** What delivering the first `n` items comes to. */
  ghost predicate Delivered<P(!new)>(s: State<P>, end: State<P>, n: nat, t: real)
    requires s.phase.Sending? && n <= |s.phase.left|
  {
    && (if n == |s.phase.left| then end.phase.Asleep? && end.lastFullPass == Some(s.phase.started)
        else end.phase == Sending(s.phase.left[n..], s.phase.started))
    && Ids(end.rows) == Ids(s.rows) - IdsOf(s.phase.left[..n])
    && SomeOf(end.rows, s.rows)
    && end.clock == (if n == 0 then s.clock else t)
    && (forall id :: id in s.confirmed ==> id in end.confirmed)
  }

  lemma DeliveredJoin<P(!new)>(s: State<P>, next: State<P>, end: State<P>, n: nat, t: real)
    requires s.phase.Sending? && 1 <= n <= |s.phase.left| && |s.phase.left| > 1
    requires Delivered(s, next, 1, t) && Delivered(next, end, n - 1, t)
    ensures Delivered(s, end, n, t)
  {
    var left := s.phase.left;
    assert left[1..][n - 1..] == left[n..];
    FirstOfIds(left, n);
    FirstOfIds(left, 1);
    assert IdsOf(left[1..][..0]) == {};
  }

  lemma DeliveredOne<P(!new)>(s: State<P>, t: real, more: seq<Step<P>>, cfg: Config) returns (next: State<P>)
    requires s.phase.Sending? && s.phase.left != []
    ensures After(s, [Answer(DELIVERED, t), Settle(t)] + more, cfg) == After(next, more, cfg)
    ensures Delivered(s, next, 1, t)
  {
    next := DeliverOne(s, more, t, cfg);
    FirstOfIds(s.phase.left, 1);
    assert IdsOf(s.phase.left[1..][..0]) == {};
  }

  /** Delivering the first `n` items takes their rows off the table and leaves the loop at the rest; having delivered
      all of them, the pass is complete. */
  lemma {:induction false} DeliverSome<P(!new)>(s: State<P>, n: nat, t: real, cfg: Config)
    requires s.phase.Sending? && n <= |s.phase.left| && s.phase.left != []
    ensures After(s, DeliverySteps(n, t), cfg).Some? && Delivered(s, After(s, DeliverySteps(n, t), cfg).value, n, t)
    decreases n
  {
    if n == 0 {
      DeliveredNone(s, t);
    } else {
      var next := DeliveredOne(s, t, DeliverySteps(n - 1, t), cfg);
      if |s.phase.left| > 1 {
        DeliverSome(next, n - 1, t, cfg);
        DeliveredJoin(s, next, After(next, DeliverySteps(n - 1, t), cfg).value, n, t);
      }
    }
  }

  lemma DeliveredNone<P(!new)>(s: State<P>, t: real)
    requires s.phase.Sending? && s.phase.left != []
    ensures Delivered(s, s, 0, t)
  {
    assert s.phase.left[0..] == s.phase.left;
  }

  lemma FirstOfIds<P>(left: seq<Item<P>>, n: nat)
    requires 0 < n <= |left|
    ensures IdsOf(left[..n]) == {left[0].id} + IdsOf(left[1..][..n - 1])
  {
    var some, rest := left[..n], left[1..][..n - 1];
    assert some[0].id == left[0].id;
    forall id | id in IdsOf(rest) ensures id in IdsOf(some) {
      var i :| 0 <= i < |rest| && rest[i].id == id;
      assert some[i + 1].id == id;
    }
    forall id | id in IdsOf(some) && id != left[0].id ensures id in IdsOf(rest) {
      var i :| 0 <= i < |some| && some[i].id == id;
      assert rest[i - 1].id == id;
    }
  }
}
