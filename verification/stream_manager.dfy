/** The ffmpeg supervisor of edge_agent/src/agent/stream_manager.py.

    `StreamManager` holds the dictionary of stream records, one per camera, and updates them in place. The operating
    system appears as the set of processes that are alive; each launch is an oracle that fails or yields a new process
    handle. Calls do not overlap. */
module StreamManagers {
  import opened Options
  import opened Powers

  const INITIAL_RESTART_DELAY := 5.0
  const MAX_RESTART_DELAY := 300.0

  datatype CameraId = CameraId(text: string)

  datatype Source = Source(rtspUrl: string, mediamtxPath: string)

  /** What one attempt to start ffmpeg comes to: no binary, an OS error, or a process. */
  datatype Launch = NoBinary | OsError | Launched(handle: int)

  // ---------- One camera ----------

  /** The part of a `StreamProcess` that its supervision depends on. */
  datatype Status = Status(process: Option<int>, running: bool, restartCount: nat, nextRetryAt: real)

  const NEW_STATUS := Status(None, false, 0, 0.0)

  /** The wait set when a death is observed after `restarts` restarts. */
  function RestartDelay(restarts: nat): real {
    var grown := INITIAL_RESTART_DELAY * Pow2(if restarts < 6 then restarts else 6) as real;
    if grown < MAX_RESTART_DELAY then grown else MAX_RESTART_DELAY
  }

  /** `_launch`: a missing binary leaves everything as it is. */
  function AfterLaunch(s: Status, launch: Launch): Status {
    match launch
    case NoBinary => s
    case OsError => s.(running := false)
    case Launched(handle) => s.(process := Some(handle), running := true)
  }

  /** Whether a check at `now` tries to relaunch. */
  predicate Relaunches(s: Status, now: real) {
    s.process.Some? && !s.running && now >= s.nextRetryAt
  }

  /** Whether a check that finds the process dead is the first to see it. */
  predicate SeesDeath(s: Status, alive: bool) {
    s.process.Some? && s.running && !alive
  }

  /** One camera's share of `restart_dead_streams`. */
  function AfterCheck(s: Status, now: real, alive: bool, launch: Launch): Status {
    if SeesDeath(s, alive) then s.(running := false, nextRetryAt := now + RestartDelay(s.restartCount))
    else if Relaunches(s, now) then AfterLaunch(s.(restartCount := s.restartCount + 1), launch)
    else s
  }

  datatype StreamProcess = StreamProcess(rtspUrl: string, rtmpUrl: string, status: Status)

  function StripSlash(url: string): string {
    if url != [] && url[|url| - 1] == '/' then StripSlash(url[..|url| - 1]) else url
  }

  // ---------- All cameras ----------

  type Streams = map<CameraId, StreamProcess>

  /** Every process handle ever issued, with the camera it was launched for. */
  type Issued = map<int, CameraId>

  function HandleOf(s: Status): set<int> {
    if s.process.Some? then {s.process.value} else {}
  }

  function Handles(launch: Launch): set<int> {
    if launch.Launched? then {launch.handle} else {}
  }

  function Issue(issued: Issued, c: CameraId, launch: Launch): Issued {
    if launch.Launched? then issued[launch.handle := c] else issued
  }

  predicate IsAlive(s: Status, live: set<int>) {
    s.process.Some? && s.process.value in live
  }

  /** A record's process was launched for its camera; a running record has one; one that is not running has none
      alive. */
  predicate Sound(c: CameraId, s: Status, issued: Issued, live: set<int>) {
    && (s.process.Some? ==> s.process.value in issued && issued[s.process.value] == c)
    && (s.running ==> s.process.Some?)
    && (!s.running ==> !IsAlive(s, live))
  }

  predicate Owns(t: Streams, c: CameraId, h: int) {
    c in t && t[c].status.process == Some(h) && t[c].status.running
  }

  /** Ownership: every process alive is the running one of the camera it was launched for. */
  ghost predicate WellOwned(t: Streams, issued: Issued, live: set<int>) {
    && (forall c :: c in t ==> Sound(c, t[c].status, issued, live))
    && (forall h :: h in live ==> h in issued && Owns(t, issued[h], h))
  }

  /** In every valid state a process alive is recorded for exactly one camera, and as running. */
  lemma ExactlyOneOwner(t: Streams, issued: Issued, live: set<int>, h: int)
    requires WellOwned(t, issued, live) && h in live
    ensures exists c :: Owns(t, c, h)
    ensures forall c, d :: c in t && d in t && t[c].status.process == t[d].status.process == Some(h) ==> c == d
  {
    assert Owns(t, issued[h], h);
    forall c, d | c in t && d in t && t[c].status.process == t[d].status.process == Some(h) ensures c == d {
      assert Sound(c, t[c].status, issued, live) && Sound(d, t[d].status, issued, live);
    }
  }

  /** The handles the operating system hands out are new and not handed out twice. */
  ghost predicate NewHandles(launches: CameraId -> Launch, issued: Issued) {
    && (forall c :: launches(c).Launched? ==> launches(c).handle !in issued)
    && (forall c, d :: c != d && launches(c).Launched? && launches(d).Launched? ==>
          launches(c).handle != launches(d).handle)
  }

  lemma NobodyOwnsNothing(t: Streams, issued: Issued, live: set<int>)
    requires WellOwned(t, issued, live) && t == map[]
    ensures live == {}
  {
    forall h ensures h !in live {
      assert h in issued ==> !Owns(t, issued[h], h);
    }
  }

  // ---------- The manager ----------

  class StreamManager {
    const rtmpBase: string
    var streams: Streams
    /** The operating system's view: the handles issued, and those whose process is alive. */
    var issued: Issued
    var live: set<int>

    ghost predicate Valid()
      reads this
    {
      WellOwned(streams, issued, live)
    }

    constructor (mediamtxRtmpBase: string)
      ensures Valid() && streams == map[] && live == {} && rtmpBase == StripSlash(mediamtxRtmpBase)
    {
      rtmpBase := StripSlash(mediamtxRtmpBase);
      streams, issued, live := map[], map[], {};
    }

    function NewRecord(source: Source, launch: Launch): StreamProcess {
      StreamProcess(source.rtspUrl, rtmpBase + "/" + source.mediamtxPath, AfterLaunch(NEW_STATUS, launch))
    }

    /** A process ends by itself. Nobody notices until the next check. */
    method ProcessExits(handle: int)
      requires Valid()
      modifies this`live
      ensures Valid() && live == old(live) - {handle}
    {
      live := live - {handle};
    }

    /** `_launch` on the record of a camera that has no process alive. */
    method LaunchRecord(c: CameraId, launch: Launch)
      requires Valid() && c in streams && !streams[c].status.running
      requires launch.Launched? ==> launch.handle !in issued
      modifies this
      ensures Valid()
      ensures streams == old(streams)[c := old(streams[c]).(status := AfterLaunch(old(streams[c].status), launch))]
      ensures issued == Issue(old(issued), c, launch) && live == old(live) + Handles(launch)
    {
      var s := streams[c].status;
      match launch {
        case NoBinary =>
        case OsError =>
          s := s.(running := false);
        case Launched(handle) =>
          s := s.(process := Some(handle));
          s := s.(running := true);
          issued := issued[handle := c];
          live := live + {handle};
      }
      streams := streams[c := streams[c].(status := s)];
    }

    /** Starts ffmpeg for a camera that has no running stream; its record is replaced by a new one. */
    method StartStream(c: CameraId, source: Source, launch: Launch)
      requires Valid()
      requires launch.Launched? ==> launch.handle !in issued
      modifies this
      ensures Valid()
      ensures if c in old(streams) && old(streams[c].status.running) then
                streams == old(streams) && issued == old(issued) && live == old(live)
              else
                && streams == old(streams)[c := NewRecord(source, launch)]
                && streams[c].rtspUrl == source.rtspUrl && streams[c].rtmpUrl == rtmpBase + "/" + source.mediamtxPath
                && issued == Issue(old(issued), c, launch) && live == old(live) + Handles(launch)
    {
      if c in streams && streams[c].status.running && streams[c].status.process.Some? {
        return;
      }
      streams := streams[c := StreamProcess(source.rtspUrl, rtmpBase + "/" + source.mediamtxPath, NEW_STATUS)];
      LaunchRecord(c, launch);
    }

    /** Removes a camera and ends its process. */
    method StopStream(c: CameraId)
      requires Valid()
      modifies this`streams, this`live
      ensures Valid() && streams == old(streams) - {c}
      ensures live == if c in old(streams) then old(live) - HandleOf(old(streams[c].status)) else old(live)
    {
      if c !in streams {
        return;
      }
      var sp := streams[c];
      streams := streams - {c};
      if sp.status.process.Some? {
        live := live - {sp.status.process.value};
      }
    }

    /** Afterwards no process is left behind. */
    method StopAll()
      requires Valid()
      modifies this`streams, this`live
      ensures Valid() && streams == map[] && live == {}
    {
      var todo := streams.Keys;
      while todo != {}
        invariant Valid() && streams.Keys == todo
      {
        var c :| c in todo;
        StopStream(c);
        todo := todo - {c};
      }
      NobodyOwnsNothing(streams, issued, live);
    }

    /** One round of supervision: every camera takes its own step, on its own record alone. */
    method RestartDeadStreams(now: real, launches: CameraId -> Launch)
      requires Valid() && NewHandles(launches, issued)
      modifies this
      ensures Valid() && streams.Keys == old(streams.Keys)
      ensures forall c :: c in streams ==>
                streams[c] == Checked(old(streams)[c], now, old(live), launches(c))
      ensures forall h :: h in old(issued) ==> (h in live <==> h in old(live))
    {
      var todo := streams.Keys;
      while todo != {}
        invariant Valid() && todo <= streams.Keys == old(streams.Keys)
        invariant forall c :: c in todo ==> streams[c] == old(streams)[c]
        invariant forall c :: c in todo && launches(c).Launched? ==> launches(c).handle !in issued
        invariant forall h :: h in old(issued) ==> h in issued && (h in live <==> h in old(live))
        invariant forall c :: c in old(streams) && c !in todo ==>
                    streams[c] == Checked(old(streams)[c], now, old(live), launches(c))
      {
        var c :| c in todo;
        todo := todo - {c};
        assert Sound(c, old(streams)[c].status, old(issued), old(live));
        CheckStream(c, now, launches(c));
      }
    }

    method CheckStream(c: CameraId, now: real, launch: Launch)
      requires Valid() && c in streams
      requires launch.Launched? ==> launch.handle !in issued
      modifies this
      ensures Valid() && streams == old(streams)[c := Checked(old(streams[c]), now, old(live), launch)]
      ensures if Relaunches(old(streams[c].status), now) then
                issued == Issue(old(issued), c, launch) && live == old(live) + Handles(launch)
              else issued == old(issued) && live == old(live)
    {
      var s := streams[c].status;
      assert streams == streams[c := streams[c].(status := s)];
      if s.process.None? {
        return;
      }
      if s.running {
        if s.process.value in live {
          return;
        }
        s := s.(running := false);
        s := s.(nextRetryAt := now + RestartDelay(s.restartCount));
        streams := streams[c := streams[c].(status := s)];
        return;
      }
      if now < s.nextRetryAt {
        return;
      }
      streams := streams[c := streams[c].(status := s.(restartCount := s.restartCount + 1))];
      LaunchRecord(c, launch);
    }

    /** Makes the supervised cameras the desired ones: what is no longer wanted is stopped, what is new is started, and
        everything else is left exactly as it is, changed source or not. */
    method Reconcile(desired: map<CameraId, Source>, launches: CameraId -> Launch)
      requires Valid() && NewHandles(launches, issued)
      modifies this
      ensures Valid() && streams.Keys == desired.Keys
      ensures forall c :: c in old(streams) && c in desired ==>
                streams[c] == old(streams)[c] && SameLife(streams[c].status, old(live), live)
      ensures forall c :: c in desired && c !in old(streams) ==>
                && streams[c] == NewRecord(desired[c], launches(c))
                && streams[c].rtspUrl == desired[c].rtspUrl
                && streams[c].rtmpUrl == rtmpBase + "/" + desired[c].mediamtxPath
      ensures forall c :: c in old(streams) && c !in desired ==> !IsAlive(old(streams)[c].status, live)
      ensures old(streams.Keys) == desired.Keys ==>
                streams == old(streams) && issued == old(issued) && live == old(live)
    {
      ghost var before := streams;
      StopUnwanted(desired.Keys);
      ghost var between, handles := live, issued;
      StartMissing(desired, launches);
      forall c | c in before ensures SameLife(before[c].status, between, live) {
        assert Sound(c, before[c].status, handles, old(live));
        assert forall h :: h in handles ==> (h in live <==> h in between);
      }
    }

    method StopUnwanted(wanted: set<CameraId>)
      requires Valid()
      modifies this`streams, this`live
      ensures Valid() && streams.Keys == old(streams.Keys) * wanted
      ensures forall c :: c in streams ==>
                streams[c] == old(streams)[c] && SameLife(streams[c].status, old(live), live)
      ensures forall c :: c in old(streams) && c !in wanted ==> !IsAlive(old(streams)[c].status, live)
      ensures live <= old(live) && (old(streams.Keys) <= wanted ==> live == old(live))
    {
      var toStop := streams.Keys - wanted;
      while toStop != {}
        invariant Valid() && streams.Keys == old(streams.Keys) * wanted + toStop && toStop !! wanted
        invariant forall c :: c in streams ==>
                    streams[c] == old(streams)[c] && SameLife(streams[c].status, old(live), live)
        invariant forall c :: c in old(streams) && c !in streams ==> !IsAlive(old(streams)[c].status, live)
        invariant live <= old(live) && (old(streams.Keys) <= wanted ==> toStop == {} && live == old(live))
      {
        var c :| c in toStop;
        assert forall d :: d in streams ==> Sound(d, streams[d].status, issued, live);
        StopStream(c);
        toStop := toStop - {c};
      }
    }

    method StartMissing(desired: map<CameraId, Source>, launches: CameraId -> Launch)
      requires Valid() && NewHandles(launches, issued) && streams.Keys <= desired.Keys
      modifies this
      ensures Valid() && streams.Keys == desired.Keys
      ensures forall c :: c in desired ==>
                streams[c] == if c in old(streams) then old(streams)[c] else NewRecord(desired[c], launches(c))
      ensures forall h :: h in old(issued) ==> (h in live <==> h in old(live))
      ensures old(streams.Keys) == desired.Keys ==>
                streams == old(streams) && issued == old(issued) && live == old(live)
    {
      var toStart := desired.Keys - streams.Keys;
      while toStart != {}
        invariant Valid() && streams.Keys + toStart == desired.Keys && toStart !! streams.Keys
        invariant old(streams.Keys) <= streams.Keys
        invariant forall c :: c in streams ==>
                    streams[c] == if c in old(streams) then old(streams)[c] else NewRecord(desired[c], launches(c))
        invariant forall c :: c in toStart && launches(c).Launched? ==> launches(c).handle !in issued
        invariant forall h :: h in old(issued) ==> h in issued && (h in live <==> h in old(live))
        invariant old(streams.Keys) == desired.Keys ==>
                    toStart == {} && streams == old(streams) && issued == old(issued) && live == old(live)
      {
        var c :| c in toStart;
        StartStream(c, desired[c], launches(c));
        toStart := toStart - {c};
      }
    }
  }

  /** One camera's record after a check. */
  function Checked(sp: StreamProcess, now: real, live: set<int>, launch: Launch): StreamProcess {
    sp.(status := AfterCheck(sp.status, now, IsAlive(sp.status, live), launch))
  }

  /** The record's process is alive after exactly when it was before. */
  predicate SameLife(s: Status, before: set<int>, after: set<int>) {
    IsAlive(s, before) == IsAlive(s, after)
  }

  // ---------- The relaunch schedule of one camera ----------

  /** The checks a camera goes through: when, whether its process was alive, and what a launch would come to. */
  datatype Check = Check(now: real, alive: bool, launch: Launch)

  ghost predicate IsHistory(statuses: seq<Status>, checks: seq<Check>) {
    && |statuses| == |checks| + 1
    && forall i :: 0 <= i < |checks| ==>
         statuses[i + 1] == AfterCheck(statuses[i], checks[i].now, checks[i].alive, checks[i].launch)
  }

  lemma {:induction false} DelayGrows(m: nat, n: nat)
    requires m <= n
    ensures 5.0 <= RestartDelay(m) <= RestartDelay(n) <= 300.0
    ensures RestartDelay(n) == 300.0 <==> n >= 6
  {
    assert Pow2(2) == 4 && Pow2(4) == 16 && Pow2(6) == 64;
    assert Pow2(1) == 2 && Pow2(3) == 8 && Pow2(5) == 32;
  }

  lemma {:induction false} RestartsNeverShrink(statuses: seq<Status>, checks: seq<Check>, i: nat, j: nat)
    requires IsHistory(statuses, checks) && i <= j <= |checks|
    ensures statuses[i].restartCount <= statuses[j].restartCount
    ensures statuses[i].process.Some? ==> statuses[j].process.Some?
  {
    if i < j {
      RestartsNeverShrink(statuses, checks, i, j - 1);
    }
  }

  /** The waits set at successive observed deaths are within 5 and 300 s and never shrink. */
  lemma DelaysNeverShrink(statuses: seq<Status>, checks: seq<Check>, i: nat, j: nat)
    requires IsHistory(statuses, checks) && i <= j < |checks|
    requires SeesDeath(statuses[i], checks[i].alive) && SeesDeath(statuses[j], checks[j].alive)
    ensures var first := statuses[i + 1].nextRetryAt - checks[i].now;
            var later := statuses[j + 1].nextRetryAt - checks[j].now;
            5.0 <= first <= later <= 300.0
  {
    RestartsNeverShrink(statuses, checks, i, j);
    DelayGrows(statuses[i].restartCount, statuses[j].restartCount);
  }

  /** From the observation of a death until the next relaunch the record waits, unchanged. */
  lemma {:induction false} WaitsUnchanged(statuses: seq<Status>, checks: seq<Check>, d: nat, k: nat)
    requires IsHistory(statuses, checks) && d < k <= |checks|
    requires SeesDeath(statuses[d], checks[d].alive)
    requires forall i :: d < i < k ==> !Relaunches(statuses[i], checks[i].now)
    ensures statuses[k] == statuses[d + 1]
  {
    if k > d + 1 {
      WaitsUnchanged(statuses, checks, d, k - 1);
    }
  }

  /** The first relaunch after an observed death does not come before its wait is over. */
  lemma NoEarlyRelaunch(statuses: seq<Status>, checks: seq<Check>, d: nat, k: nat)
    requires IsHistory(statuses, checks) && d < k < |checks|
    requires SeesDeath(statuses[d], checks[d].alive)
    requires forall i :: d < i < k ==> !Relaunches(statuses[i], checks[i].now)
    ensures Relaunches(statuses[k], checks[k].now)
       <==> checks[k].now >= checks[d].now + RestartDelay(statuses[d].restartCount)
  {
    WaitsUnchanged(statuses, checks, d, k);
  }

  /** It never gives up: with checks at most `gap` apart and going on until the wait is over, an observed death is
      followed by a relaunch attempt no later than the wait plus one gap, and not before the wait. */
  lemma {:induction false} RelaunchIsTimely(statuses: seq<Status>, checks: seq<Check>, d: nat, last: nat, gap: real)
    requires IsHistory(statuses, checks) && d < last < |checks|
    requires SeesDeath(statuses[d], checks[d].alive)
    requires forall i :: d < i <= last ==> checks[i - 1].now <= checks[i].now <= checks[i - 1].now + gap
    requires checks[last].now >= checks[d].now + RestartDelay(statuses[d].restartCount)
    ensures var over := checks[d].now + RestartDelay(statuses[d].restartCount);
            exists k :: d < k <= last && Relaunches(statuses[k], checks[k].now) && over <= checks[k].now <= over + gap
                        && forall i :: d < i < k ==> !Relaunches(statuses[i], checks[i].now)
  {
    var over := checks[d].now + RestartDelay(statuses[d].restartCount);
    var k := d + 1;
    DelayGrows(statuses[d].restartCount, statuses[d].restartCount);
    while checks[k].now < over
      decreases last - k
      invariant d < k <= last
      invariant checks[k - 1].now < over
      invariant forall i :: d < i < k ==> !Relaunches(statuses[i], checks[i].now)
    {
      NoEarlyRelaunch(statuses, checks, d, k);
      k := k + 1;
    }
    NoEarlyRelaunch(statuses, checks, d, k);
  }

  /** What a check does, in the source's own numbers: it leaves a live process and a camera without one alone; a death
      it is the first to see stops the record and sets a wait of 5, 10, 20, 40, 80, 160 or 300 s by the restarts so
      far; afterwards nothing happens until the wait is over, and then the restart is counted, whatever the launch
      comes to. */
  lemma CheckInNumbers(s: Status, now: real, alive: bool, launch: Launch)
    ensures var t, n := AfterCheck(s, now, alive, launch), s.restartCount;
            if s.process.None? then t == s
            else if s.running then
              if alive then t == s
              else
                && t.process == s.process && !t.running && t.restartCount == n
                && t.nextRetryAt == now + (if n < 6 then [5.0, 10.0, 20.0, 40.0, 80.0, 160.0][n] else 300.0)
            else if now < s.nextRetryAt then t == s
            else
              && t.restartCount == n + 1 && t.nextRetryAt == s.nextRetryAt
              && (t.running <==> launch.Launched?)
              && t.process == (if launch.Launched? then Some(launch.handle) else s.process)
  {
    DelayTable(s.restartCount);
  }

  lemma DelayTable(n: nat)
    ensures RestartDelay(n) == if n < 6 then [5.0, 10.0, 20.0, 40.0, 80.0, 160.0][n] else 300.0
  {
    assert Pow2(2) == 4 && Pow2(4) == 16 && Pow2(6) == 64;
    assert Pow2(1) == 2 && Pow2(3) == 8 && Pow2(5) == 32;
  }

  /** How many of the first `k` checks tried to relaunch. */
  function Attempts(statuses: seq<Status>, checks: seq<Check>, k: nat): nat
    requires k <= |checks| && k <= |statuses|
  {
    if k == 0 then 0
    else
      var s, now := statuses[k - 1], checks[k - 1].now;
      Attempts(statuses, checks, k - 1) + if s.process.Some? && !s.running && now >= s.nextRetryAt then 1 else 0
  }

  /** Over every history, relaunch attempts are counted, failed ones included, and nothing else is. */
  lemma {:induction false} RestartsAreCounted(statuses: seq<Status>, checks: seq<Check>, k: nat)
    requires IsHistory(statuses, checks) && k <= |checks|
    ensures statuses[k].restartCount == statuses[0].restartCount + Attempts(statuses, checks, k)
  {
    if k > 0 {
      RestartsAreCounted(statuses, checks, k - 1);
      CheckInNumbers(statuses[k - 1], checks[k - 1].now, checks[k - 1].alive, checks[k - 1].launch);
    }
  }

  /** The backoff grows with the relaunches: over every history of a new record, the wait set at an observed death
      after n relaunch attempts is 5, 10, 20, 40, 80, 160 s for n up to five and 300 s from then on. */
  lemma WaitsGrowWithAttempts(statuses: seq<Status>, checks: seq<Check>, d: nat)
    requires IsHistory(statuses, checks) && d < |checks| && statuses[0].restartCount == 0
    requires statuses[d].process.Some? && statuses[d].running && !checks[d].alive
    ensures var n := Attempts(statuses, checks, d);
            statuses[d + 1].nextRetryAt - checks[d].now
            == if n < 6 then [5.0, 10.0, 20.0, 40.0, 80.0, 160.0][n] else 300.0
  {
    RestartsAreCounted(statuses, checks, d);
    CheckInNumbers(statuses[d], checks[d].now, checks[d].alive, checks[d].launch);
  }

  /** A new record: no restarts counted and nothing waited for; running exactly if the launch yields a process. */
  lemma NewRecordIsFresh(launch: Launch)
    ensures var s := AfterLaunch(NEW_STATUS, launch);
            && s.restartCount == 0 && s.nextRetryAt == 0.0 && (s.running <==> launch.Launched?)
            && s.process == (if launch.Launched? then Some(launch.handle) else None)
  {
  }

  /** The base address loses its trailing slashes and nothing else, so that exactly one is put before the path. */
  lemma {:induction false} StripSlashExact(url: string)
    ensures var base := StripSlash(url);
            && base <= url && (base == [] || base[|base| - 1] != '/')
            && forall i :: |base| <= i < |url| ==> url[i] == '/'
  {
    if url != [] && url[|url| - 1] == '/' {
      StripSlashExact(url[..|url| - 1]);
    }
  }

  // ---------- A relaunch that itself fails ----------

  /** The backoff is set when a death is observed, and a launch that fails is not one: after a relaunch attempt, any
      later check relaunches again if and only if the attempt yielded no process. */
  lemma FailedRelaunchHasNoBackoff(s: Status, now: real, alive: bool, launch: Launch, later: real)
    requires Relaunches(s, now) && later >= now
    ensures Relaunches(AfterCheck(s, now, alive, launch), later) <==> !launch.Launched?
  {
  }

  lemma {:induction false} RunsUntilDeath(statuses: seq<Status>, checks: seq<Check>, k: nat, j: nat)
    requires IsHistory(statuses, checks) && k < j <= |checks|
    requires statuses[k + 1].running && statuses[k + 1].process.Some?
    requires forall i :: k < i < j ==> !SeesDeath(statuses[i], checks[i].alive)
    ensures statuses[j] == statuses[k + 1]
  {
    if j > k + 1 {
      RunsUntilDeath(statuses, checks, k, j - 1);
    }
  }

  /** What that means for the spacing of attempts, over any history: between an attempt and the next one there is an
      observed death and its whole backoff if and only if the first attempt yielded a process. If it did not, the next
      attempt is the very next check. */
  lemma AttemptsAreSpacedExactlyWhen(statuses: seq<Status>, checks: seq<Check>, k: nat, j: nat)
    requires IsHistory(statuses, checks) && k < j < |checks|
    requires forall i :: k < i <= j ==> checks[i - 1].now <= checks[i].now
    requires Relaunches(statuses[k], checks[k].now) && Relaunches(statuses[j], checks[j].now)
    requires forall i :: k < i < j ==> !Relaunches(statuses[i], checks[i].now)
    ensures checks[k].launch.Launched? <==>
              exists d :: k < d < j && SeesDeath(statuses[d], checks[d].alive)
                          && checks[j].now >= checks[d].now + RestartDelay(statuses[d].restartCount)
    ensures !checks[k].launch.Launched? ==> j == k + 1
  {
    FailedRelaunchHasNoBackoff(statuses[k], checks[k].now, checks[k].alive, checks[k].launch, checks[k + 1].now);
    if checks[k].launch.Launched? {
      if forall i :: k < i < j ==> !SeesDeath(statuses[i], checks[i].alive) {
        RunsUntilDeath(statuses, checks, k, j);
      } else {
        var d :| k < d < j && SeesDeath(statuses[d], checks[d].alive);
        NoEarlyRelaunch(statuses, checks, d, j);
      }
    }
  }

  /** Except for a camera that was never launched: without a process, no check ever does anything for it. And only for
      that one: a stopped camera with a process is relaunched by the first check after its wait. */
  lemma NeverLaunchedIsNeverRetried(s: Status)
    requires !s.running
    ensures s.process.None? <==>
              forall now, alive, launch :: AfterCheck(s, now, alive, launch) == s
  {
    if s.process.Some? {
      assert AfterCheck(s, s.nextRetryAt, false, NoBinary).restartCount == s.restartCount + 1;
    }
  }
}
