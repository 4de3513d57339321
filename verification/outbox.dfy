/** The durable event queue of analytics/src/analytics/core/outbox.py.

    The table is the sequence of its rows in id order. Each SQL statement is a function on such sequences; the
    methods of `EventOutbox` apply them to the table held in the object. Times are reals read off a clock the caller
    passes in, since the source reads the wall clock. */
module Outboxes {
  import opened Options
  import opened Powers

  const INITIAL_BACKOFF_SECONDS := 5
  const MAX_BACKOFF_SECONDS := 300

  datatype Row<P> = Row(id: int, payload: P, attempts: nat, nextAttemptAt: real, createdAt: real)

  /** What `list_due` hands out for a row. */
  datatype Item<P> = Item(id: int, payload: P, attempts: nat)

  type Table<P> = seq<Row<P>>

  // ---------- SQL statements ----------

  /** A WHERE clause. */
  datatype Where = IdIsNot(id: int) | IdAbove(id: int) | CreatedSince(t: real) | DueBy(t: real)

  predicate Matches<P>(r: Row<P>, w: Where) {
    match w
    case IdIsNot(id) => r.id != id
    case IdAbove(id) => r.id > id
    case CreatedSince(t) => r.createdAt >= t
    case DueBy(t) => r.nextAttemptAt <= t
  }

  function Keep<P>(rows: Table<P>, w: Where): Table<P> {
    if rows == [] then []
    else if Matches(rows[0], w) then [rows[0]] + Keep(rows[1..], w)
    else Keep(rows[1..], w)
  }

  /** DELETE ... WHERE id = ? */
  function Without<P>(rows: Table<P>, id: int): Table<P> {
    Keep(rows, IdIsNot(id))
  }

  /** DELETE ... WHERE created_at < ? */
  function Young<P>(rows: Table<P>, oldest: real): Table<P> {
    Keep(rows, CreatedSince(oldest))
  }

  /** SELECT ... WHERE next_attempt_at <= ? ORDER BY id */
  function Due<P>(rows: Table<P>, now: real): Table<P> {
    Keep(rows, DueBy(now))
  }

  /** DELETE ... WHERE id IN (the lowest ids, as many as exceed the cap). A negative cap deletes everything. */
  function Newest<P>(rows: Table<P>, maxRows: int): Table<P> {
    if maxRows <= 0 then [] else if |rows| <= maxRows then rows else rows[|rows| - maxRows..]
  }

  /** The age cap, then the size cap. */
  function Pruned<P>(rows: Table<P>, now: real, maxAge: int, maxRows: int): Table<P> {
    Newest(Young(rows, now - maxAge as real), maxRows)
  }

  /** UPDATE ... SET attempts = ?, next_attempt_at = ? WHERE id = ? */
  function Rescheduled<P>(rows: Table<P>, id: int, attempts: nat, at: real): (r: Table<P>)
    ensures |r| == |rows|
  {
    seq(|rows|, i requires 0 <= i < |rows| =>
      if rows[i].id == id then rows[i].(attempts := attempts, nextAttemptAt := at) else rows[i])
  }

  /** UPDATE ... SET next_attempt_at = ? WHERE next_attempt_at < ? */
  function Deferred<P>(rows: Table<P>, until: real): (r: Table<P>)
    ensures |r| == |rows|
  {
    seq(|rows|, i requires 0 <= i < |rows| =>
      if rows[i].nextAttemptAt < until then rows[i].(nextAttemptAt := until) else rows[i])
  }

  function ItemOf<P>(r: Row<P>): Item<P> {
    Item(r.id, r.payload, r.attempts)
  }

  function Items<P>(rows: Table<P>): (r: seq<Item<P>>)
    ensures |r| == |rows|
  {
    seq(|rows|, i requires 0 <= i < |rows| => ItemOf(rows[i]))
  }

  /** 5 s, 10 s, 20 s and so on, at most five minutes. */
  function Backoff(attempts: nat): int {
    var grown := INITIAL_BACKOFF_SECONDS * Pow2(attempts);
    if grown < MAX_BACKOFF_SECONDS then grown else MAX_BACKOFF_SECONDS
  }

  function AtLeastOne(seconds: int): int {
    if seconds < 1 then 1 else seconds
  }

  function Limited<P>(rows: Table<P>, limit: Option<int>): Table<P> {
    // SQLite reads a negative LIMIT as no limit.
    match limit
    case None => rows
    case Some(n) => if 0 <= n < |rows| then rows[..n] else rows
  }

  // ---------- The queue ----------

  class EventOutbox<P> {
    var rows: Table<P>
    var nextId: int
    var dropped: int
    const maxRows: int
    const maxAge: int

    ghost predicate Valid()
      reads this
    {
      IdsIncrease(rows) && IdsBelow(rows, nextId)
    }

    /** Opens a database file: a new one is empty with ids from 1, an old one brings its rows and its id counter.
        The drop counter always starts again. */
    constructor Open(stored: Table<P>, nextId: int, maxRows: int, maxAge: int)
      requires IdsIncrease(stored) && IdsBelow(stored, nextId)
      ensures Valid() && rows == stored && this.nextId == nextId && dropped == 0
      ensures this.maxRows == maxRows && this.maxAge == maxAge
    {
      rows, this.nextId, dropped := stored, nextId, 0;
      this.maxRows, this.maxAge := maxRows, maxAge;
    }

    method Enqueue(payload: P, now: real, pruneNow: real) returns (id: int)
      requires Valid()
      modifies this
      ensures Valid() && id == old(nextId) && nextId == old(nextId) + 1
      ensures rows == Pruned(old(rows) + [Row(id, payload, 0, now, now)], pruneNow, maxAge, maxRows)
      ensures dropped == old(dropped) + |old(rows)| + 1 - |rows|
    {
      id := Insert(payload, now);
      Prune(pruneNow);
    }

    /** The first transaction of `Enqueue`: committed even if the prune that follows fails. */
    method Insert(payload: P, now: real) returns (id: int)
      requires Valid()
      modifies this`rows, this`nextId
      ensures Valid() && id == old(nextId) && nextId == old(nextId) + 1
      ensures rows == old(rows) + [Row(id, payload, 0, now, now)]
    {
      id := nextId;
      nextId := nextId + 1;
      rows := rows + [Row(id, payload, 0, now, now)];
    }

    /** The due rows, oldest first; with a limit, the oldest of them. */
    method ListDue(limit: Option<int>, now: real) returns (due: seq<Item<P>>)
      requires Valid()
      ensures forall i, j :: 0 <= i < j < |due| ==> due[i].id < due[j].id
      ensures forall i :: 0 <= i < |due| ==> ReadOff(due[i], rows, now)
      ensures limit.Some? && 0 <= limit.value ==> |due| <= limit.value
      ensures forall r :: r in rows && r.nextAttemptAt <= now && ItemOf(r) !in due ==>
                limit.Some? && |due| == limit.value && forall i :: 0 <= i < |due| ==> due[i].id < r.id
      ensures due == Items(Limited(Due(rows, now), limit))
    {
      DueListExact(rows, limit, now, nextId);
      due := Items(Limited(Due(rows, now), limit));
    }

    method Remove(id: int)
      requires Valid()
      modifies this`rows
      ensures Valid() && rows == Without(old(rows), id)
      ensures forall r :: r in rows <==> r in old(rows) && r.id != id
    {
      KeepExact(rows, IdIsNot(id));
      KeepInOrder(rows, IdIsNot(id), nextId);
      rows := Without(rows, id);
    }

    method Reschedule(id: int, attempts: nat, now: real)
      requires Valid()
      modifies this`rows
      ensures Valid() && rows == Rescheduled(old(rows), id, attempts + 1, now + Backoff(attempts) as real)
      ensures OnlyRetried(old(rows), rows, id, attempts, now)
    {
      BackoffTable(attempts);
      var backoff := Backoff(attempts);
      rows := Rescheduled(rows, id, attempts + 1, now + backoff as real);
    }

    method DeferAll(seconds: int, now: real)
      requires Valid()
      modifies this`rows
      ensures Valid() && rows == Deferred(old(rows), now + AtLeastOne(seconds) as real)
      ensures AllPutOff(old(rows), rows, now + (if seconds < 1 then 1.0 else seconds as real))
    {
      var until := now + AtLeastOne(seconds) as real;
      rows := Deferred(rows, until);
    }

    method CountPending() returns (count: int)
      ensures count == |rows|
    {
      count := |rows|;
    }

    method DrainDroppedCount() returns (count: int)
      modifies this`dropped
      ensures count == old(dropped) && dropped == 0
    {
      count, dropped := dropped, 0;
    }

    method Prune(now: real)
      requires Valid()
      modifies this`rows, this`dropped
      ensures Valid() && rows == Pruned(old(rows), now, maxAge, maxRows)
      ensures dropped == old(dropped) + |old(rows)| - |rows|
    {
      var before := |rows|;
      KeepInOrder(rows, CreatedSince(now - maxAge as real), nextId);
      rows := Young(rows, now - maxAge as real);
      var byAge := before - |rows|;
      var remaining := |rows|;
      rows := Newest(rows, maxRows);
      var bySize := remaining - |rows|;
      dropped := dropped + byAge + bySize;
    }
  }

  // ---------- Order ----------

  ghost predicate IdsIncrease<P>(rows: Table<P>) {
    forall i, j :: 0 <= i < j < |rows| ==> rows[i].id < rows[j].id
  }

  ghost predicate IdsBelow<P>(rows: Table<P>, bound: int) {
    forall i :: 0 <= i < |rows| ==> rows[i].id < bound
  }

  lemma {:induction false} KeepExact<P>(rows: Table<P>, w: Where)
    ensures |Keep(rows, w)| <= |rows|
    ensures forall r :: r in Keep(rows, w) <==> r in rows && Matches(r, w)
    ensures forall i :: 0 <= i < |Keep(rows, w)| ==> Keep(rows, w)[i] in rows && Matches(Keep(rows, w)[i], w)
  {
    if rows != [] {
      KeepExact(rows[1..], w);
      assert rows == [rows[0]] + rows[1..];
    }
  }

  lemma {:induction false} KeepInOrder<P>(rows: Table<P>, w: Where, bound: int)
    requires IdsIncrease(rows) && IdsBelow(rows, bound)
    ensures IdsIncrease(Keep(rows, w)) && IdsBelow(Keep(rows, w), bound)
    ensures |Keep(rows, w)| <= |rows|
  {
    KeepExact(rows, w);
    if rows != [] {
      KeepInOrder(rows[1..], w, bound);
      KeepExact(rows[1..], w);
      var rest := Keep(rows[1..], w);
      forall i | 0 <= i < |rest| ensures rows[0].id < rest[i].id {
        assert rest[i] in rows[1..];
      }
    }
  }

  /** The item was read off a row that is due. */
  ghost predicate ReadOff<P>(item: Item<P>, rows: Table<P>, now: real) {
    exists k :: 0 <= k < |rows| && rows[k].nextAttemptAt <= now && ItemOf(rows[k]) == item
  }

  /** The list of due items: in id order, nothing that is not due, everything that is due unless the limit is used up
      by older rows. */
  lemma DueListExact<P>(rows: Table<P>, limit: Option<int>, now: real, bound: int)
    requires IdsIncrease(rows) && IdsBelow(rows, bound)
    ensures var due := Items(Limited(Due(rows, now), limit));
            && (forall i, j :: 0 <= i < j < |due| ==> due[i].id < due[j].id)
            && (forall i :: 0 <= i < |due| ==> ReadOff(due[i], rows, now))
            && (limit.Some? && 0 <= limit.value ==> |due| <= limit.value)
            && (forall r :: r in rows && r.nextAttemptAt <= now && ItemOf(r) !in due ==>
                  limit.Some? && |due| == limit.value && forall i :: 0 <= i < |due| ==> due[i].id < r.id)
  {
    var all := Due(rows, now);
    var due := Items(Limited(all, limit));
    KeepExact(rows, DueBy(now));
    KeepInOrder(rows, DueBy(now), bound);
    assert forall i :: 0 <= i < |due| ==> due[i] == ItemOf(all[i]);
    forall i | 0 <= i < |due| ensures ReadOff(due[i], rows, now) {
      assert all[i] in rows && Matches(all[i], DueBy(now));
      var k :| 0 <= k < |rows| && rows[k] == all[i];
    }
    forall r | r in rows && r.nextAttemptAt <= now && ItemOf(r) !in due
      ensures limit.Some? && |due| == limit.value && forall i :: 0 <= i < |due| ==> due[i].id < r.id
    {
      assert Matches(r, DueBy(now));
      MissedIsBeyond(all, due, r);
    }
  }

  lemma MissedIsBeyond<P>(all: Table<P>, due: seq<Item<P>>, r: Row<P>)
    requires IdsIncrease(all) && |due| <= |all| && r in all && ItemOf(r) !in due
    requires forall i :: 0 <= i < |due| ==> due[i] == ItemOf(all[i])
    ensures |due| < |all| && forall i :: 0 <= i < |due| ==> due[i].id < r.id
  {
    var k :| 0 <= k < |all| && all[k] == r;
    assert forall i :: 0 <= i < |due| ==> due[i] in due;
  }

  /** Deleting by id takes away the one row with that id, if there is one. */
  lemma {:induction false} WithoutOne<P>(rows: Table<P>, id: int)
    requires IdsIncrease(rows)
    ensures |Without(rows, id)| == |rows| - if exists i :: 0 <= i < |rows| && rows[i].id == id then 1 else 0
  {
    if rows == [] {
    } else if rows[0].id == id {
      AllKept(rows[1..], IdIsNot(id));
    } else {
      WithoutOne(rows[1..], id);
      var rest := rows[1..];
      if i :| 0 <= i < |rows| && rows[i].id == id {
        assert rest[i - 1].id == id;
      }
      if j :| 0 <= j < |rest| && rest[j].id == id {
        assert rows[j + 1].id == id;
      }
    }
  }

  // ---------- The caps ----------

  /** How many rows young enough to stay were queued after the row `id`. */
  function NewerYoung<P>(rows: Table<P>, oldest: real, id: int): nat {
    |Keep(Young(rows, oldest), IdAbove(id))|
  }

  lemma {:induction false} NewerThan<P>(rows: Table<P>, k: nat)
    requires IdsIncrease(rows) && k < |rows|
    ensures |Keep(rows, IdAbove(rows[k].id))| == |rows| - k - 1
  {
    var id := rows[k].id;
    AllKept(rows[k + 1..], IdAbove(id));
    SkipPrefix(rows, IdAbove(id), k + 1);
  }

  lemma {:induction false} AllKept<P>(rows: Table<P>, w: Where)
    requires forall i :: 0 <= i < |rows| ==> Matches(rows[i], w)
    ensures Keep(rows, w) == rows
  {
    if rows != [] {
      AllKept(rows[1..], w);
    }
  }

  lemma {:induction false} SkipPrefix<P>(rows: Table<P>, w: Where, n: nat)
    requires n <= |rows| && forall i :: 0 <= i < n ==> !Matches(rows[i], w)
    ensures Keep(rows, w) == Keep(rows[n..], w)
  {
    if n > 0 {
      SkipPrefix(rows[1..], w, n - 1);
      assert rows[1..][n - 1..] == rows[n..];
    }
  }

  /** The caps keep exactly the rows that are young enough and have fewer than `maxRows` young rows after them:
      the newest survive. */
  lemma PruneKeepsTheNewest<P>(rows: Table<P>, now: real, maxAge: int, maxRows: int, r: Row<P>)
    requires IdsIncrease(rows)
    ensures r in Pruned(rows, now, maxAge, maxRows)
       <==> r in rows && r.createdAt >= now - maxAge as real
            && NewerYoung(rows, now - maxAge as real, r.id) < maxRows
    ensures |Pruned(rows, now, maxAge, maxRows)| <= if maxRows < 0 then 0 else maxRows
  {
    var oldest := now - maxAge as real;
    var young := Young(rows, oldest);
    KeepExact(rows, CreatedSince(oldest));
    if rows != [] {
      KeepInOrder(rows, CreatedSince(oldest), rows[|rows| - 1].id + 1);
    }
    if r in young {
      var k :| 0 <= k < |young| && young[k] == r;
      NewerThan(young, k);
      if 0 < maxRows < |young| {
        var kept := young[|young| - maxRows..];
        if k >= |young| - maxRows {
          assert kept[k - (|young| - maxRows)] == r;
        }
      }
    }
  }

  /** The row just queued survives its own prune exactly when the size cap admits anything at all and the age cap
      reaches back to its creation: a full queue never costs the newcomer. */
  lemma NewcomerSurvives<P>(rows: Table<P>, newcomer: Row<P>, now: real, maxAge: int, maxRows: int)
    requires IdsIncrease(rows) && IdsBelow(rows, newcomer.id)
    ensures newcomer in Pruned(rows + [newcomer], now, maxAge, maxRows)
       <==> maxRows >= 1 && newcomer.createdAt >= now - maxAge as real
  {
    var oldest := now - maxAge as real;
    var all := rows + [newcomer];
    PruneKeepsTheNewest(all, now, maxAge, maxRows, newcomer);
    KeepInOrder(all, CreatedSince(oldest), newcomer.id + 1);
    SkipPrefix(Young(all, oldest), IdAbove(newcomer.id), |Young(all, oldest)|);
  }

  // ---------- The schedule ----------

  /** The backoff never shrinks as attempts accumulate, starts at 5 s, stays within five minutes and is at five
      minutes exactly from the seventh attempt on. */
  lemma BackoffBounds(m: nat, n: nat)
    requires m <= n
    ensures Backoff(0) == 5 <= Backoff(m) <= Backoff(n) <= 300
    ensures Backoff(n) == 300 <==> n >= 6
  {
    Pow2Grows(m, n);
    assert Pow2(5) == 32 && Pow2(6) == 64 by {
      assert Pow2(3) == 8;
    }
    if n >= 6 {
      Pow2Grows(6, n);
    } else {
      Pow2Grows(n, 5);
    }
  }

  /** The waits, in seconds, after zero, one, two ... failed attempts. */
  lemma BackoffTable(n: nat)
    ensures n < 6 ==> Backoff(n) == [5, 10, 20, 40, 80, 160][n]
    ensures n >= 6 ==> Backoff(n) == 300
  {
    BackoffBounds(n, n);
    assert Pow2(1) == 2 && Pow2(2) == 4 && Pow2(3) == 8;
    assert Pow2(4) == 16 && Pow2(5) == 32;
  }

  /** The same rows, each put off to `until` if it was due before. */
  ghost predicate AllPutOff<P>(before: Table<P>, after: Table<P>, until: real) {
    |after| == |before| && forall i :: 0 <= i < |before| ==> PutOffTo(before[i], after[i], until)
  }

  ghost predicate PutOffTo<P>(before: Row<P>, after: Row<P>, until: real) {
    && after.id == before.id && after.payload == before.payload && after.attempts == before.attempts
    && after.createdAt == before.createdAt
    && after.nextAttemptAt == if before.nextAttemptAt < until then until else before.nextAttemptAt
  }

  /** The same rows, the one with this id having failed once more at `now`. */
  ghost predicate OnlyRetried<P>(before: Table<P>, after: Table<P>, id: int, attempts: nat, now: real) {
    |after| == |before|
    && forall i :: 0 <= i < |before| ==>
         if before[i].id == id then Retried(before[i], after[i], attempts, now) else after[i] == before[i]
  }

  /** One attempt more, and the next one after 5, 10, 20, 40, 80, 160 or 300 s. */
  ghost predicate Retried<P>(before: Row<P>, after: Row<P>, attempts: nat, now: real) {
    && after.id == before.id && after.payload == before.payload && after.createdAt == before.createdAt
    && after.attempts == attempts + 1
    && after.nextAttemptAt == now + (if attempts < 6 then [5.0, 10.0, 20.0, 40.0, 80.0, 160.0][attempts] else 300.0)
  }

  /** A collective deferral leaves no row due before its end, never brings one forward, and counts as an attempt for
      none of them. */
  lemma DeferralIsCollective<P>(rows: Table<P>, until: real, i: nat)
    requires i < |rows|
    ensures var r := Deferred(rows, until)[i];
            r.nextAttemptAt >= until && r.nextAttemptAt >= rows[i].nextAttemptAt
            && r == rows[i].(nextAttemptAt := r.nextAttemptAt)
    ensures forall now :: now < until ==> Due(Deferred(rows, until), now) == []
  {
    var deferred := Deferred(rows, until);
    forall now | now < until ensures Due(deferred, now) == [] {
      SkipPrefix(deferred, DueBy(now), |deferred|);
    }
  }
}
