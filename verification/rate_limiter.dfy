/** The sliding-window limiter of arcanum/internal/antiban/ratelimiter.go.

    `RateLimiter` keeps the source's shape: a list of timestamps that `Allow` and `Usage` trim in place.
    Everything else is about whole runs of calls: what the list means, which windows stay bounded, and why no
    other admission policy can do better. */
module RateLimiting {

  const WINDOW_MS: int := 60_000

  datatype Call = Allow(now: int) | Usage(now: int)

  /** The list with `t` added at the end when `add` holds. */
  function Extend(ts: seq<int>, add: bool, t: int): seq<int> {
    if add then ts + [t] else ts
  }

  /** The list once its leading stale entries are gone. */
  function DropStale(ts: seq<int>, cutoff: int): seq<int> {
    if |ts| > 0 && ts[0] < cutoff then DropStale(ts[1..], cutoff) else ts
  }

  /** Whether a call on the list `ts` admits a message. */
  predicate Grants(ts: seq<int>, limit: int, c: Call) {
    c.Allow? && |DropStale(ts, c.now - WINDOW_MS)| < limit
  }

  /** The list after a call. */
  function Next(ts: seq<int>, limit: int, c: Call): seq<int> {
    Extend(DropStale(ts, c.now - WINDOW_MS), Grants(ts, limit, c), c.now)
  }

  class RateLimiter {
    var timestamps: seq<int>
    const limit: int
    const windowMs: int := WINDOW_MS

    constructor (limit: int)
      ensures timestamps == [] && this.limit == limit
    {
      this.timestamps := [];
      this.limit := limit;
    }

    method Allow(now: int) returns (ok: bool)
      modifies this`timestamps
      ensures ok == Grants(old(timestamps), limit, Call.Allow(now))
      ensures timestamps == Next(old(timestamps), limit, Call.Allow(now))
    {
      Prune(now);
      if |timestamps| >= limit {
        return false;
      }
      timestamps := timestamps + [now];
      ok := true;
    }

    method Usage(now: int) returns (current: int, max: int)
      modifies this`timestamps
      ensures current == |Next(old(timestamps), limit, Call.Usage(now))| && max == limit
      ensures timestamps == Next(old(timestamps), limit, Call.Usage(now))
    {
      Prune(now);
      current, max := |timestamps|, limit;
    }

    method Prune(now: int)
      modifies this`timestamps
      ensures timestamps == DropStale(old(timestamps), now - windowMs)
    {
      var cutoff := now - windowMs;
      var i := 0;
      while i < |timestamps| && timestamps[i] < cutoff
        invariant 0 <= i <= |timestamps|
        invariant DropStale(timestamps[i..], cutoff) == DropStale(timestamps, cutoff)
      {
        i := i + 1;
      }
      timestamps := timestamps[i..];
    }
  }

  // ---------- Runs ----------

  /** The stored list after a run that starts from a new limiter. */
  function Stored(calls: seq<Call>, limit: int): seq<int> {
    if calls == [] then [] else Next(Stored(calls[..|calls| - 1], limit), limit, calls[|calls| - 1])
  }

  /** The limiter's own answers, one per call. */
  function Granted(calls: seq<Call>, limit: int): (d: seq<bool>)
    ensures |d| == |calls|
  {
    if calls == [] then []
    else
      var before := calls[..|calls| - 1];
      Granted(before, limit) + [Grants(Stored(before, limit), limit, calls[|calls| - 1])]
  }

  /** The admission times of an arbitrary policy: `d[i]` is its answer to call `i`. */
  function AcceptedBy(calls: seq<Call>, d: seq<bool>): seq<int>
    requires |d| == |calls|
  {
    if calls == [] then []
    else
      var n := |calls| - 1;
      Extend(AcceptedBy(calls[..n], d[..n]), calls[n].Allow? && d[n], calls[n].now)
  }

  /** What the limiter admits. */
  function Admitted(calls: seq<Call>, limit: int): seq<int> {
    AcceptedBy(calls, Granted(calls, limit))
  }

  ghost predicate Monotone(calls: seq<Call>) {
    forall i, j :: 0 <= i <= j < |calls| ==> calls[i].now <= calls[j].now
  }

  /** How many of the times lie in the closed interval from `lo` to `hi`. */
  function CountIn(ts: seq<int>, lo: int, hi: int): nat {
    if ts == [] then 0
    else CountIn(ts[..|ts| - 1], lo, hi) + if lo <= ts[|ts| - 1] <= hi then 1 else 0
  }

  /** The times not older than `cutoff`, in order: the reference meaning of the stored list. */
  function Recent(ts: seq<int>, cutoff: int): seq<int> {
    if ts == [] then []
    else Extend(Recent(ts[..|ts| - 1], cutoff), ts[|ts| - 1] >= cutoff, ts[|ts| - 1])
  }

  function InWindow(ts: seq<int>, lo: int): nat {
    CountIn(ts, lo, lo + 60_000)
  }

  /** A policy respects the limit when every closed window of 60 000 ms is within it. A limit below zero admits
      nothing, exactly like zero. */
  ghost predicate Respects(ts: seq<int>, limit: int) {
    forall lo :: InWindow(ts, lo) <= if limit < 0 then 0 else limit
  }

  ghost predicate Sorted(ts: seq<int>) {
    forall i, j :: 0 <= i <= j < |ts| ==> ts[i] <= ts[j]
  }

  ghost predicate NoneAfter(ts: seq<int>, now: int) {
    forall i :: 0 <= i < |ts| ==> ts[i] <= now
  }

  ghost predicate CalledBy(calls: seq<Call>, now: int) {
    forall i :: 0 <= i < |calls| ==> calls[i].now <= now
  }

  lemma CountSnoc(ts: seq<int>, t: int, lo: int, hi: int)
    ensures CountIn(ts + [t], lo, hi) == CountIn(ts, lo, hi) + if lo <= t <= hi then 1 else 0
  {
    assert (ts + [t])[..|ts|] == ts;
  }

  lemma RecentSnoc(ts: seq<int>, t: int, cutoff: int)
    ensures Recent(ts + [t], cutoff) == Extend(Recent(ts, cutoff), t >= cutoff, t)
  {
    assert (ts + [t])[..|ts|] == ts;
  }

  // ---------- What the stored list means ----------

  lemma {:induction false} GrantedPrefix(calls: seq<Call>, limit: int, k: nat)
    requires k <= |calls|
    ensures Granted(calls[..k], limit) == Granted(calls, limit)[..k]
  {
    if k < |calls| {
      var n := |calls| - 1;
      GrantedPrefix(calls[..n], limit, k);
      assert calls[..n][..k] == calls[..k];
    } else {
      assert calls[..k] == calls;
    }
  }

  lemma {:induction false} AcceptedInOrder(calls: seq<Call>, d: seq<bool>, now: int)
    requires |d| == |calls| && Monotone(calls) && CalledBy(calls, now)
    ensures Sorted(AcceptedBy(calls, d)) && NoneAfter(AcceptedBy(calls, d), now)
  {
    if calls != [] {
      var n := |calls| - 1;
      AcceptedInOrder(calls[..n], d[..n], calls[n].now);
    }
  }

  lemma {:induction false} RecentOfAll(ts: seq<int>, cutoff: int)
    requires forall i :: 0 <= i < |ts| ==> ts[i] >= cutoff
    ensures Recent(ts, cutoff) == ts
  {
    if ts != [] {
      var n := |ts| - 1;
      RecentOfAll(ts[..n], cutoff);
      assert ts == ts[..n] + [ts[n]];
    }
  }

  lemma {:induction false} RecentCons(t: int, ts: seq<int>, cutoff: int)
    ensures Recent([t] + ts, cutoff) == if t >= cutoff then [t] + Recent(ts, cutoff) else Recent(ts, cutoff)
  {
    if ts == [] {
      RecentSnoc([], t, cutoff);
      assert [] + [t] == [t] + [];
    } else {
      var n := |ts| - 1;
      RecentCons(t, ts[..n], cutoff);
      assert ([t] + ts)[..|ts|] == [t] + ts[..n];
    }
  }

  /** On a sorted list, dropping the stale prefix is the same as keeping the recent entries. */
  lemma {:induction false} DropStaleIsRecent(ts: seq<int>, cutoff: int)
    requires Sorted(ts)
    ensures DropStale(ts, cutoff) == Recent(ts, cutoff)
  {
    if |ts| > 0 && ts[0] < cutoff {
      DropStaleIsRecent(ts[1..], cutoff);
      RecentCons(ts[0], ts[1..], cutoff);
      assert [ts[0]] + ts[1..] == ts;
    } else {
      RecentOfAll(ts, cutoff);
    }
  }

  lemma {:induction false} RecentTwice(ts: seq<int>, c1: int, c2: int)
    requires c1 <= c2
    ensures Recent(Recent(ts, c1), c2) == Recent(ts, c2)
  {
    if ts != [] {
      var n := |ts| - 1;
      RecentTwice(ts[..n], c1, c2);
      RecentSnoc(Recent(ts[..n], c1), ts[n], c2);
    }
  }

  lemma {:induction false} RecentSorted(ts: seq<int>, cutoff: int, now: int)
    requires Sorted(ts) && NoneAfter(ts, now)
    ensures Sorted(Recent(ts, cutoff)) && NoneAfter(Recent(ts, cutoff), now)
  {
    if ts != [] {
      RecentSorted(ts[..|ts| - 1], cutoff, ts[|ts| - 1]);
    }
  }

  lemma {:induction false} RecentCount(ts: seq<int>, lo: int, hi: int)
    requires NoneAfter(ts, hi)
    ensures |Recent(ts, lo)| == CountIn(ts, lo, hi)
  {
    if ts != [] {
      RecentCount(ts[..|ts| - 1], lo, hi);
    }
  }

  lemma AdmittedStep(calls: seq<Call>, c: Call, limit: int)
    ensures Admitted(calls + [c], limit)
         == Extend(Admitted(calls, limit), Grants(Stored(calls, limit), limit, c), c.now)
    ensures Stored(calls + [c], limit) == Next(Stored(calls, limit), limit, c)
  {
    assert (calls + [c])[..|calls|] == calls;
    assert Granted(calls + [c], limit)[..|calls|] == Granted(calls, limit);
  }

  lemma MonotoneStep(calls: seq<Call>, c: Call)
    requires Monotone(calls + [c])
    ensures Monotone(calls) && CalledBy(calls, c.now)
  {
    var all := calls + [c];
    forall i, j | 0 <= i <= j < |calls| ensures calls[i].now <= calls[j].now {
      assert all[i].now <= all[j].now;
    }
    forall i | 0 <= i < |calls| ensures calls[i].now <= c.now {
      assert all[i].now <= all[|calls|].now;
    }
  }

  /** In every run on a nondecreasing clock the stored list, trimmed at any later moment, is the admitted history
      restricted to the last 60 s. */
  lemma {:induction false} TrimmedIsRecentHistory(calls: seq<Call>, limit: int, now: int)
    requires Monotone(calls) && CalledBy(calls, now)
    ensures DropStale(Stored(calls, limit), now - WINDOW_MS) == Recent(Admitted(calls, limit), now - WINDOW_MS)
    decreases |calls|, 1
  {
    if calls != [] {
      var last := calls[|calls| - 1].now;
      StoredIsRecentHistory(calls, limit);
      AcceptedInOrder(calls, Granted(calls, limit), last);
      RecentSorted(Admitted(calls, limit), last - WINDOW_MS, last);
      DropStaleIsRecent(Stored(calls, limit), now - WINDOW_MS);
      RecentTwice(Admitted(calls, limit), last - WINDOW_MS, now - WINDOW_MS);
    }
  }

  /** After every call the stored list is the admitted history restricted to the 60 s that end with that call. */
  lemma {:induction false} StoredIsRecentHistory(calls: seq<Call>, limit: int)
    requires calls != [] && Monotone(calls)
    ensures Stored(calls, limit) == Recent(Admitted(calls, limit), calls[|calls| - 1].now - WINDOW_MS)
    decreases |calls|, 0
  {
    var before, c := calls[..|calls| - 1], calls[|calls| - 1];
    assert calls == before + [c];
    MonotoneStep(before, c);
    AdmittedStep(before, c, limit);
    TrimmedIsRecentHistory(before, limit, c.now);
    RecentSnoc(Admitted(before, limit), c.now, c.now - WINDOW_MS);
  }

  /** A message is refused exactly when the window that ends with it is already full. */
  lemma {:induction false} RefusedExactlyWhenWindowFull(calls: seq<Call>, limit: int, now: int)
    requires Monotone(calls) && CalledBy(calls, now)
    ensures Grants(Stored(calls, limit), limit, Allow(now))
       <==> InWindow(Admitted(calls, limit), now - WINDOW_MS) < limit
  {
    TrimmedIsRecentHistory(calls, limit, now);
    AcceptedInOrder(calls, Granted(calls, limit), now);
    RecentCount(Admitted(calls, limit), now - WINDOW_MS, now);
  }

  // ---------- The bound on every window, on any clock ----------

  lemma {:induction false} CountAppend(us: seq<int>, vs: seq<int>, lo: int, hi: int)
    ensures CountIn(us + vs, lo, hi) == CountIn(us, lo, hi) + CountIn(vs, lo, hi)
  {
    if vs == [] {
      assert us + vs == us;
    } else {
      var n := |vs| - 1;
      assert (us + vs)[..|us| + n] == us + vs[..n];
      CountAppend(us, vs[..n], lo, hi);
    }
  }

  lemma {:induction false} CountAtMost(ts: seq<int>, lo: int, hi: int)
    ensures CountIn(ts, lo, hi) <= |ts|
    ensures (forall i :: 0 <= i < |ts| ==> !(lo <= ts[i] <= hi)) ==> CountIn(ts, lo, hi) == 0
  {
    if ts != [] {
      CountAtMost(ts[..|ts| - 1], lo, hi);
    }
  }

  /** What the limiter has forgotten: admissions no longer on the list, oldest first. */
  function Forgotten(calls: seq<Call>, limit: int): seq<int> {
    if calls == [] then []
    else
      var before, c := calls[..|calls| - 1], calls[|calls| - 1];
      Forgotten(before, limit) + StalePrefix(Stored(before, limit), c.now - WINDOW_MS)
  }

  function StalePrefix(ts: seq<int>, cutoff: int): seq<int> {
    if |ts| > 0 && ts[0] < cutoff then [ts[0]] + StalePrefix(ts[1..], cutoff) else []
  }

  lemma {:induction false} StaleThenRest(ts: seq<int>, cutoff: int)
    ensures StalePrefix(ts, cutoff) + DropStale(ts, cutoff) == ts
    ensures forall i :: 0 <= i < |StalePrefix(ts, cutoff)| ==> StalePrefix(ts, cutoff)[i] < cutoff
  {
    if |ts| > 0 && ts[0] < cutoff {
      StaleThenRest(ts[1..], cutoff);
      JoinFirst(ts[0], StalePrefix(ts[1..], cutoff), DropStale(ts[1..], cutoff), ts);
    }
  }

  lemma JoinFirst(t: int, us: seq<int>, vs: seq<int>, ts: seq<int>)
    requires ts != [] && ts[0] == t && us + vs == ts[1..]
    ensures [t] + us + vs == ts
  {
    assert [t] + us + vs == [t] + (us + vs);
  }

  lemma {:induction false} ForgottenThenStored(calls: seq<Call>, limit: int)
    ensures Forgotten(calls, limit) + Stored(calls, limit) == Admitted(calls, limit)
  {
    if calls != [] {
      var before, c := calls[..|calls| - 1], calls[|calls| - 1];
      assert calls == before + [c];
      ForgottenThenStored(before, limit);
      AdmittedStep(before, c, limit);
      StaleThenRest(Stored(before, limit), c.now - WINDOW_MS);
      Regroup(Forgotten(before, limit), Stored(before, limit), StalePrefix(Stored(before, limit), c.now - WINDOW_MS),
              DropStale(Stored(before, limit), c.now - WINDOW_MS), c.now);
    }
  }

  lemma Regroup(us: seq<int>, vs: seq<int>, stale: seq<int>, rest: seq<int>, t: int)
    requires stale + rest == vs
    ensures us + stale + rest == us + vs && us + stale + (rest + [t]) == us + vs + [t]
  {
    assert us + (stale + rest) == us + stale + rest;
  }

  /** The time of an earlier call that a later call found expired. */
  ghost predicate Expired(calls: seq<Call>, t: int) {
    exists i, j :: 0 <= i < j < |calls| && calls[i].now == t && t + WINDOW_MS < calls[j].now
  }

  lemma {:induction false} AdmittedWhenCalled(calls: seq<Call>, limit: int, t: int)
    requires t in Admitted(calls, limit)
    ensures exists i :: 0 <= i < |calls| && calls[i].now == t
  {
    var before, c := calls[..|calls| - 1], calls[|calls| - 1];
    assert calls == before + [c];
    AdmittedStep(before, c, limit);
    if t in Admitted(before, limit) {
      AdmittedWhenCalled(before, limit, t);
      var i :| 0 <= i < |before| && before[i].now == t;
      assert calls[i].now == t;
    }
  }

  /** Nothing is forgotten before a call has found it expired. */
  lemma {:induction false} ForgottenIsExpired(calls: seq<Call>, limit: int, t: int)
    requires t in Forgotten(calls, limit)
    ensures Expired(calls, t)
  {
    var n := |calls| - 1;
    var before, c := calls[..n], calls[n];
    if t in Forgotten(before, limit) {
      ForgottenIsExpired(before, limit, t);
      var i, j :| 0 <= i < j < |before| && before[i].now == t && t + WINDOW_MS < before[j].now;
      assert calls[i].now == t && t + WINDOW_MS < calls[j].now;
    } else {
      StaleThenRest(Stored(before, limit), c.now - WINDOW_MS);
      ForgottenThenStored(before, limit);
      assert t in Stored(before, limit);
      AdmittedWhenCalled(before, limit, t);
      var i :| 0 <= i < |before| && before[i].now == t;
      assert calls[i].now == t && t + WINDOW_MS < calls[n].now;
    }
  }

  /** The clock finds the time of some call expired and later comes back to within a window of it. */
  ghost predicate Revisits(clock: seq<int>) {
    exists i, j, k :: 0 <= i < j < k < |clock| && RevisitsAt(clock, i, j, k)
  }

  predicate RevisitsAt(clock: seq<int>, i: nat, j: nat, k: nat)
    requires i < j < k < |clock|
  {
    clock[i] + WINDOW_MS < clock[j] && clock[i] - WINDOW_MS <= clock[k] <= clock[i] + WINDOW_MS
  }

  /** The calls read these times. */
  ghost predicate ReadAt(calls: seq<Call>, clock: seq<int>) {
    |calls| == |clock| && forall i :: 0 <= i < |calls| ==> calls[i].now == clock[i]
  }

  /** Whatever was forgotten before an admission lies outside every window around it. */
  lemma ForgottenStaysAway(before: seq<Call>, c: Call, clock: seq<int>, limit: int, lo: int)
    requires ReadAt(before + [c], clock) && !Revisits(clock) && lo <= c.now <= lo + WINDOW_MS
    ensures CountIn(Forgotten(before, limit), lo, lo + WINDOW_MS) == 0
  {
    var forgotten := Forgotten(before, limit);
    forall i | 0 <= i < |forgotten| ensures !(lo <= forgotten[i] <= lo + WINDOW_MS) {
      ForgottenIsExpired(before, limit, forgotten[i]);
      ExpiredStaysAway(before, c, clock, forgotten[i]);
    }
    CountAtMost(forgotten, lo, lo + WINDOW_MS);
  }

  /** So the list the limiter looks at is long enough to keep every window around the admission within the limit. */
  lemma AdmissionFits(before: seq<Call>, c: Call, clock: seq<int>, limit: int, lo: int)
    requires ReadAt(before + [c], clock) && !Revisits(clock)
    requires Grants(Stored(before, limit), limit, c) && lo <= c.now <= lo + WINDOW_MS
    ensures InWindow(Admitted(before, limit), lo) < limit
  {
    var cutoff, hi := c.now - WINDOW_MS, lo + WINDOW_MS;
    var stored := Stored(before, limit);
    ForgottenThenStored(before, limit);
    CountAppend(Forgotten(before, limit), stored, lo, hi);
    ForgottenStaysAway(before, c, clock, limit, lo);
    StaleThenRest(stored, cutoff);
    CountAppend(StalePrefix(stored, cutoff), DropStale(stored, cutoff), lo, hi);
    CountAtMost(StalePrefix(stored, cutoff), lo, hi);
    CountAtMost(DropStale(stored, cutoff), lo, hi);
  }

  lemma ExpiredStaysAway(before: seq<Call>, c: Call, clock: seq<int>, t: int)
    requires ReadAt(before + [c], clock) && !Revisits(clock) && Expired(before, t)
    ensures !(t - WINDOW_MS <= c.now <= t + WINDOW_MS)
  {
    var i, j :| 0 <= i < j < |before| && before[i].now == t && t + WINDOW_MS < before[j].now;
    var all, k := before + [c], |before|;
    assert clock[i] == all[i].now && clock[j] == all[j].now && clock[k] == all[k].now;
    assert !RevisitsAt(clock, i, j, k);
  }

  /** On a clock that never comes back to a time it has found expired, no closed window of 60 s anywhere in a run holds
      more than the limit, whatever the mix of calls. */
  lemma {:induction false} BoundedUnlessRevisited(calls: seq<Call>, clock: seq<int>, limit: int)
    requires ReadAt(calls, clock) && !Revisits(clock)
    ensures Respects(Admitted(calls, limit), limit)
  {
    if calls == [] {
      assert forall lo :: InWindow([], lo) == 0;
    } else {
      var n := |calls| - 1;
      var before, c := calls[..n], calls[n];
      assert calls == before + [c];
      ShorterClock(clock);
      BoundedUnlessRevisited(before, clock[..n], limit);
      AdmittedStep(before, c, limit);
      var history := Admitted(before, limit);
      if Grants(Stored(before, limit), limit, c) {
        forall lo ensures InWindow(history + [c.now], lo) <= if limit < 0 then 0 else limit {
          CountSnoc(history, c.now, lo, lo + WINDOW_MS);
          assert InWindow(history, lo) <= if limit < 0 then 0 else limit;
          if lo <= c.now <= lo + WINDOW_MS {
            AdmissionFits(before, c, clock, limit, lo);
          }
        }
      }
    }
  }

  lemma ShorterClock(clock: seq<int>)
    requires clock != [] && !Revisits(clock)
    ensures !Revisits(clock[..|clock| - 1])
  {
    var some := clock[..|clock| - 1];
    forall i, j, k | 0 <= i < j < k < |some| ensures !RevisitsAt(some, i, j, k) {
      assert !RevisitsAt(clock, i, j, k);
    }
  }

  /** In particular on a nondecreasing clock. */
  lemma EveryWindowBounded(calls: seq<Call>, limit: int)
    requires Monotone(calls)
    ensures Respects(Admitted(calls, limit), limit)
  {
    var clock := seq(|calls|, i requires 0 <= i < |calls| => calls[i].now);
    forall i, j, k | 0 <= i < j < k < |clock| ensures !RevisitsAt(clock, i, j, k) {
      assert calls[j].now <= calls[k].now;
    }
    BoundedUnlessRevisited(calls, clock, limit);
  }

  // ---------- And on no other clock ----------

  /** Messages at the calls `i` and `k`, and only queries in between. */
  function TwoMessages(clock: seq<int>, i: nat, k: nat): (calls: seq<Call>)
    ensures |calls| == |clock|
  {
    seq(|clock|, n requires 0 <= n < |clock| => if n == i || n == k then Allow(clock[n]) else Usage(clock[n]))
  }

  lemma {:induction false} ForgetsTheFirst(clock: seq<int>, i: nat, j: nat, k: nat, m: nat)
    requires i < j < k < |clock| && clock[i] + WINDOW_MS < clock[j] && m <= k
    ensures var calls := TwoMessages(clock, i, k)[..m];
            && Admitted(calls, 1) == (if m <= i then [] else [clock[i]])
            && (Stored(calls, 1) == [] || (i < m <= j && Stored(calls, 1) == [clock[i]]))
  {
    if m > 0 {
      var calls := TwoMessages(clock, i, k);
      ForgetsTheFirst(clock, i, j, k, m - 1);
      assert calls[..m] == calls[..m - 1] + [calls[m - 1]];
      AdmittedStep(calls[..m - 1], calls[m - 1], 1);
      DropOne(clock[i], calls[m - 1].now - WINDOW_MS);
    }
  }

  lemma DropOne(t: int, cutoff: int)
    ensures DropStale([t], cutoff) == (if t < cutoff then [] else [t]) && DropStale([], cutoff) == []
  {
    assert [t][1..] == [];
  }

  lemma {:induction false} AdmitsBoth(clock: seq<int>, i: nat, j: nat, k: nat, m: nat)
    requires i < j < k < m <= |clock| && clock[i] + WINDOW_MS < clock[j]
    ensures Admitted(TwoMessages(clock, i, k)[..m], 1) == [clock[i], clock[k]]
  {
    var calls := TwoMessages(clock, i, k);
    assert calls[..m] == calls[..m - 1] + [calls[m - 1]];
    AdmittedStep(calls[..m - 1], calls[m - 1], 1);
    if m == k + 1 {
      ForgetsTheFirst(clock, i, j, k, k);
    } else {
      AdmitsBoth(clock, i, j, k, m - 1);
    }
  }

  lemma TwoInOneWindow(t: int, u: int)
    requires t - WINDOW_MS <= u <= t + WINDOW_MS
    ensures !Respects([t, u], 1)
  {
    var lo := if t < u then t else u;
    CountSnoc([], t, lo, lo + WINDOW_MS);
    CountSnoc([t], u, lo, lo + WINDOW_MS);
    assert [] + [t] == [t] && [t] + [u] == [t, u];
    assert InWindow([t, u], lo) == 2;
  }

  /** The bound on any clock: all runs with these readings, under all limits, keep every window within the limit if and
      only if the clock never finds a call's time expired and then comes back to within a window of it. */
  lemma BoundHoldsExactlyOnSuchClocks(clock: seq<int>)
    ensures (forall calls, limit :: ReadAt(calls, clock) ==> Respects(Admitted(calls, limit), limit))
       <==> !Revisits(clock)
  {
    if Revisits(clock) {
      var i, j, k :| 0 <= i < j < k < |clock| && RevisitsAt(clock, i, j, k);
      var calls := TwoMessages(clock, i, k);
      AdmitsBoth(clock, i, j, k, |clock|);
      assert calls[..|clock|] == calls;
      TwoInOneWindow(clock[i], clock[k]);
      assert ReadAt(calls, clock) && !Respects(Admitted(calls, 1), 1);
    } else {
      forall calls, limit | ReadAt(calls, clock) ensures Respects(Admitted(calls, limit), limit) {
        BoundedUnlessRevisited(calls, clock, limit);
      }
    }
  }

  // ---------- Usage is an observer ----------

  function OnlyAllows(calls: seq<Call>): seq<Call> {
    if calls == [] then []
    else
      var n := |calls| - 1;
      if calls[n].Allow? then OnlyAllows(calls[..n]) + [calls[n]] else OnlyAllows(calls[..n])
  }

  lemma {:induction false} OnlyAllowsInOrder(calls: seq<Call>, now: int)
    requires Monotone(calls) && CalledBy(calls, now)
    ensures Monotone(OnlyAllows(calls)) && CalledBy(OnlyAllows(calls), now)
  {
    if calls != [] {
      var n := |calls| - 1;
      OnlyAllowsInOrder(calls[..n], calls[n].now);
    }
  }

  /** Deleting every `Usage` call from a run changes no admission. */
  lemma {:induction false} UsageNeverChangesADecision(calls: seq<Call>, limit: int)
    requires Monotone(calls)
    ensures Admitted(OnlyAllows(calls), limit) == Admitted(calls, limit)
  {
    if calls != [] {
      var before, c := calls[..|calls| - 1], calls[|calls| - 1];
      assert calls == before + [c];
      MonotoneStep(before, c);
      UsageNeverChangesADecision(before, limit);
      AdmittedStep(before, c, limit);
      if c == Allow(c.now) {
        OnlyAllowsInOrder(before, c.now);
        SameHistorySameDecision(before, OnlyAllows(before), limit, c.now);
        AdmittedStep(OnlyAllows(before), c, limit);
      }
    }
  }

  lemma SameHistorySameDecision(calls: seq<Call>, others: seq<Call>, limit: int, now: int)
    requires Monotone(calls) && CalledBy(calls, now) && Monotone(others) && CalledBy(others, now)
    requires Admitted(calls, limit) == Admitted(others, limit)
    ensures Grants(Stored(calls, limit), limit, Allow(now)) == Grants(Stored(others, limit), limit, Allow(now))
  {
    RefusedExactlyWhenWindowFull(calls, limit, now);
    RefusedExactlyWhenWindowFull(others, limit, now);
  }

  // ---------- Optimality ----------

  /** The number of calls made before time `t`. */
  function CallsBefore(calls: seq<Call>, t: int): (m: nat)
    ensures m <= |calls|
  {
    if calls != [] && calls[|calls| - 1].now >= t then CallsBefore(calls[..|calls| - 1], t) else |calls|
  }

  lemma {:induction false} NoneSince(ts: seq<int>, t: int, now: int)
    requires NoneAfter(ts, t - 1)
    ensures CountIn(ts, t, now) == 0
  {
    if ts != [] {
      NoneSince(ts[..|ts| - 1], t, now);
    }
  }

  /** Any policy's admissions split at a time `t`: those of the calls before `t`, then those since. */
  lemma {:induction false} SplitAt(calls: seq<Call>, d: seq<bool>, t: int, now: int)
    requires |d| == |calls| && Monotone(calls) && CalledBy(calls, now)
    ensures var m := CallsBefore(calls, t);
            |AcceptedBy(calls, d)| == |AcceptedBy(calls[..m], d[..m])| + CountIn(AcceptedBy(calls, d), t, now)
  {
    var m := CallsBefore(calls, t);
    if m == |calls| {
      assert calls[..m] == calls && d[..m] == d;
      AcceptedInOrder(calls, d, t - 1);
      NoneSince(AcceptedBy(calls, d), t, now);
    } else {
      var n := |calls| - 1;
      SplitAt(calls[..n], d[..n], t, now);
      assert calls[..n][..m] == calls[..m] && d[..n][..m] == d[..m];
      CountSnoc(AcceptedBy(calls[..n], d[..n]), calls[n].now, t, now);
    }
  }

  lemma {:induction false} RespectsPrefix(calls: seq<Call>, d: seq<bool>, limit: int, k: nat)
    requires k <= |calls| == |d| && Respects(AcceptedBy(calls, d), limit)
    ensures Respects(AcceptedBy(calls[..k], d[..k]), limit)
  {
    if k == |calls| {
      assert calls[..k] == calls && d[..k] == d;
    } else {
      var n := |calls| - 1;
      var before := AcceptedBy(calls[..n], d[..n]);
      forall lo ensures InWindow(before, lo) <= if limit < 0 then 0 else limit {
        CountSnoc(before, calls[n].now, lo, lo + WINDOW_MS);
        assert InWindow(AcceptedBy(calls, d), lo) <= if limit < 0 then 0 else limit;
      }
      RespectsPrefix(calls[..n], d[..n], limit, k);
      assert calls[..n][..k] == calls[..k] && d[..n][..k] == d[..k];
    }
  }

  /** Greedy is optimal: after every run, no policy within the limit has admitted more messages. */
  lemma {:induction false} GreedyAdmitsMost(calls: seq<Call>, d: seq<bool>, limit: int)
    requires |d| == |calls| && Monotone(calls) && Respects(AcceptedBy(calls, d), limit)
    ensures |AcceptedBy(calls, d)| <= |Admitted(calls, limit)|
    decreases |calls|, 1
  {
    if calls != [] {
      var n := |calls| - 1;
      var before, c := calls[..n], calls[n];
      assert calls == before + [c];
      RespectsPrefix(calls, d, limit, n);
      GreedyAdmitsMost(before, d[..n], limit);
      AdmittedStep(before, c, limit);
      if c.Allow? && d[n] && !Grants(Stored(before, limit), limit, c) {
        RefusalCostsNothing(before, c, d[..n], limit);
      }
    }
  }

  /** The crux: where the limiter refuses and the other policy admits, the limiter was already ahead. */
  lemma {:induction false} RefusalCostsNothing(before: seq<Call>, c: Call, d: seq<bool>, limit: int)
    requires |d| == |before| && Monotone(before + [c]) && c.Allow?
    requires Respects(AcceptedBy(before, d) + [c.now], limit)
    requires Respects(AcceptedBy(before, d), limit)
    requires !Grants(Stored(before, limit), limit, c)
    ensures |AcceptedBy(before, d)| < |Admitted(before, limit)|
    decreases |before|, 3
  {
    MonotoneStep(before, c);
    var t := c.now - WINDOW_MS;
    // Both sides split at the start of the full window; up to there, by induction.
    SplitAt(before, Granted(before, limit), t, c.now);
    SplitAt(before, d, t, c.now);
    GreedyLeadsThroughout(before, d, limit, CallsBefore(before, t));
    // Inside it the limiter holds at least `limit`, the other policy fewer since it admits one more now.
    RefusedExactlyWhenWindowFull(before, limit, c.now);
    RoomForOneMore(AcceptedBy(before, d), c.now, limit);
  }

  lemma RoomForOneMore(ts: seq<int>, now: int, limit: int)
    requires Respects(ts + [now], limit)
    ensures InWindow(ts, now - WINDOW_MS) < limit
  {
    CountSnoc(ts, now, now - WINDOW_MS, now);
    assert InWindow(ts + [now], now - WINDOW_MS) <= if limit < 0 then 0 else limit;
  }

  /** And not only at the end: the limiter is ahead, or level, after every prefix of the run. */
  lemma {:induction false} GreedyLeadsThroughout(calls: seq<Call>, d: seq<bool>, limit: int, k: nat)
    requires k <= |calls| == |d| && Monotone(calls) && Respects(AcceptedBy(calls, d), limit)
    ensures |AcceptedBy(calls[..k], d[..k])| <= |AcceptedBy(calls[..k], Granted(calls, limit)[..k])|
    decreases |calls|, 2
  {
    RespectsPrefix(calls, d, limit, k);
    GrantedPrefix(calls, limit, k);
    GreedyAdmitsMost(calls[..k], d[..k], limit);
  }

  /** The k-th admitted message never leaves later than under any other policy within the limit. */
  lemma {:induction false} GreedyAdmitsEarliest(calls: seq<Call>, d: seq<bool>, limit: int, k: nat)
    requires |d| == |calls| && Monotone(calls) && Respects(AcceptedBy(calls, d), limit)
    requires k < |AcceptedBy(calls, d)|
    ensures k < |Admitted(calls, limit)| && Admitted(calls, limit)[k] <= AcceptedBy(calls, d)[k]
  {
    var n := |calls| - 1;
    assert calls == calls[..n] + [calls[n]];
    GreedyAdmitsMost(calls, d, limit);
    AdmittedStep(calls[..n], calls[n], limit);
    if k < |AcceptedBy(calls[..n], d[..n])| {
      RespectsPrefix(calls, d, limit, n);
      GreedyAdmitsEarliest(calls[..n], d[..n], limit, k);
    } else {
      AcceptedInOrder(calls, Granted(calls, limit), calls[n].now);
    }
  }
}
