/** The model cache of edge_agent/src/agent/optimizer.py.

    `ResourceOptimizer` keeps the dictionary of loaded models and evicts the entry with the oldest `last_used`. The
    ghost field `recency` names its keys from the most to the least recently used; the theorems relate that list, over
    whole traces, to the distinct paths requested. Use times are taken to increase strictly. */
module ModelCaches {
  import opened Options

  datatype Path = Path(text: string)

  datatype Hardware = Hardware(hasGpu: bool, gpuVramGb: real, ramGb: real)

  datatype Entry<M> = Entry(modelPath: Path, model: M, lastUsed: real)

  type Cache<M> = map<Path, Entry<M>>

  /** Always at least one slot, and never more than four on a GPU. */
  function MaxCacheSize(hw: Hardware): (size: int)
    ensures size in {1, 2, 4, 6} && (hw.hasGpu ==> size <= 4)
  {
    if hw.hasGpu then
      if hw.gpuVramGb >= 8.0 then 4 else if hw.gpuVramGb >= 4.0 then 2 else 1
    else
      if hw.ramGb >= 32.0 then 6 else if hw.ramGb >= 16.0 then 4 else 2
  }

  /** The thresholds, in gigabytes: 8 and 4 of video memory on a GPU, 32 and 16 of main memory without one. */
  lemma CacheSizes(hw: Hardware)
    ensures hw.hasGpu ==>
              && (MaxCacheSize(hw) == 4 <==> hw.gpuVramGb >= 8.0)
              && (MaxCacheSize(hw) == 2 <==> 4.0 <= hw.gpuVramGb < 8.0)
              && (MaxCacheSize(hw) == 1 <==> hw.gpuVramGb < 4.0)
    ensures !hw.hasGpu ==>
              && (MaxCacheSize(hw) == 6 <==> hw.ramGb >= 32.0)
              && (MaxCacheSize(hw) == 4 <==> 16.0 <= hw.ramGb < 32.0)
              && (MaxCacheSize(hw) == 2 <==> hw.ramGb < 16.0)
  {
  }

  // ---------- Recency lists ----------

  predicate Distinct(s: seq<Path>) {
    forall i, j :: 0 <= i < j < |s| ==> s[i] != s[j]
  }

  function IndexOf(s: seq<Path>, p: Path): (i: nat)
    requires p in s
    ensures i < |s| && s[i] == p
  {
    if s[0] == p then 0 else 1 + IndexOf(s[1..], p)
  }

  /** The list with the first `p`, if any, taken out. */
  function Remove(s: seq<Path>, p: Path): seq<Path> {
    if p in s then s[..IndexOf(s, p)] + s[IndexOf(s, p) + 1..] else s
  }

  function DropLast(s: seq<Path>): seq<Path> {
    if s == [] then [] else s[..|s| - 1]
  }

  /** What a request does to the recency list of a cache with room for `size` models: a hit moves to the front, a miss
      on a full cache costs the last one, and a load that fails adds nothing. */
  function Touch(recency: seq<Path>, p: Path, loads: bool, size: int): seq<Path> {
    if p in recency then [p] + Remove(recency, p)
    else
      var rest := if |recency| >= size then DropLast(recency) else recency;
      if loads then [p] + rest else rest
  }

  // ---------- The cache ----------

  function Elems(s: seq<Path>): set<Path> {
    set p | p in s
  }

  predicate Falling(times: seq<real>) {
    forall i, j :: 0 <= i < j < |times| ==> times[i] > times[j]
  }

  ghost predicate AllIn<M>(recency: seq<Path>, cache: Cache<M>) {
    forall i :: 0 <= i < |recency| ==> recency[i] in cache
  }

  ghost function Stamps<M>(cache: Cache<M>, recency: seq<Path>): (times: seq<real>)
    requires AllIn(recency, cache)
    ensures |times| == |recency| && forall i :: 0 <= i < |times| ==> times[i] == cache[recency[i]].lastUsed
  {
    seq(|recency|, i requires 0 <= i < |recency| => cache[recency[i]].lastUsed)
  }

  /** `recency` lists exactly the cached paths, by falling use time. */
  ghost predicate Ranks<M>(cache: Cache<M>, recency: seq<Path>) {
    && AllIn(recency, cache) && Falling(Stamps(cache, recency))
    && Elems(recency) == cache.Keys && |cache| == |recency|
  }

  ghost predicate Before<M>(cache: Cache<M>, now: real) {
    forall p :: p in cache ==> cache[p].lastUsed < now
  }

  predicate IsOldest<M>(cache: Cache<M>, p: Path) {
    p in cache && forall q :: q in cache ==> cache[p].lastUsed <= cache[q].lastUsed
  }

  class ResourceOptimizer<M> {
    var modelCache: Cache<M>
    const maxCacheSize: int
    ghost var recency: seq<Path>

    ghost predicate Valid()
      reads this
    {
      Ranks(modelCache, recency)
    }

    /** Every cached model is what `loader` gives for its path. */
    ghost predicate LoadedBy(loader: Path -> Option<M>)
      reads this
    {
      forall p :: p in modelCache ==> loader(p) == Some(modelCache[p].model)
    }

    ghost predicate LaterThanAll(now: real)
      reads this
    {
      Before(modelCache, now)
    }

    constructor (hardware: Hardware)
      ensures Valid() && recency == [] && modelCache == map[] && maxCacheSize == MaxCacheSize(hardware)
    {
      modelCache, recency := map[], [];
      maxCacheSize := MaxCacheSize(hardware);
    }

    /** Returns the model, or nothing when the loader raises. */
    method GetOrLoadModel(modelPath: Path, loader: Path -> Option<M>, now: real) returns (model: Option<M>)
      requires Valid() && LoadedBy(loader) && LaterThanAll(now)
      modifies this
      ensures Valid() && LoadedBy(loader)
      ensures model == loader(modelPath)
      ensures recency == Touch(old(recency), modelPath, loader(modelPath).Some?, maxCacheSize)
      ensures forall p :: p in modelCache ==> modelCache[p].lastUsed <= now
    {
      if modelPath in modelCache {
        model := Reuse(modelPath, loader, now);
        return;
      }
      if |modelCache| >= maxCacheSize {
        EvictLru();
      }
      model := Load(modelPath, loader, now);
    }

    method Load(modelPath: Path, loader: Path -> Option<M>, now: real) returns (model: Option<M>)
      requires Valid() && LoadedBy(loader) && LaterThanAll(now) && modelPath !in modelCache
      modifies this
      ensures Valid() && LoadedBy(loader) && model == loader(modelPath)
      ensures recency == if model.Some? then [modelPath] + old(recency) else old(recency)
      ensures forall p :: p in modelCache ==> modelCache[p].lastUsed <= now
    {
      model := loader(modelPath);
      if model.Some? {
        Store(modelPath, model.value, now);
      }
    }

    method Reuse(modelPath: Path, ghost loader: Path -> Option<M>, now: real) returns (model: Option<M>)
      requires Valid() && LoadedBy(loader) && LaterThanAll(now) && modelPath in modelCache
      modifies this
      ensures Valid() && LoadedBy(loader) && model == loader(modelPath)
      ensures recency == [modelPath] + Remove(old(recency), modelPath)
      ensures forall p :: p in modelCache ==> modelCache[p].lastUsed <= now
    {
      model := Some(modelCache[modelPath].model);
      Refresh(modelPath, now);
    }

    method Refresh(modelPath: Path, now: real)
      requires Valid() && modelPath in modelCache && LaterThanAll(now)
      modifies this
      ensures Valid() && recency == [modelPath] + Remove(old(recency), modelPath)
      ensures modelCache == old(modelCache)[modelPath := old(modelCache)[modelPath].(lastUsed := now)]
    {
      var entry := modelCache[modelPath].(lastUsed := now);
      Promote(modelCache, recency, modelPath, entry);
      modelCache := modelCache[modelPath := entry];
      recency := [modelPath] + Remove(recency, modelPath);
    }

    method Store(modelPath: Path, model: M, now: real)
      requires Valid() && modelPath !in modelCache && LaterThanAll(now)
      modifies this
      ensures Valid() && recency == [modelPath] + old(recency)
      ensures modelCache == old(modelCache)[modelPath := Entry(modelPath, model, now)]
    {
      var entry := Entry(modelPath, model, now);
      Admit(modelCache, recency, modelPath, entry);
      modelCache := modelCache[modelPath := entry];
      recency := [modelPath] + recency;
    }

    method EvictLru()
      requires Valid()
      modifies this
      ensures Valid() && recency == DropLast(old(recency))
      ensures forall p :: p in modelCache ==> p in old(modelCache) && modelCache[p] == old(modelCache)[p]
      ensures old(modelCache) == map[] ==> modelCache == map[]
      ensures old(modelCache) != map[] ==>
                exists p :: IsOldest(old(modelCache), p) && modelCache == old(modelCache) - {p}
    {
      if modelCache == map[] {
        return;
      }
      LastIsOldest(modelCache, recency);
      var oldestPath :| IsOldest(modelCache, oldestPath);
      EvictLast(modelCache, recency);
      modelCache := modelCache - {oldestPath};
      recency := DropLast(recency);
    }

    method ClearCache()
      modifies this
      ensures Valid() && modelCache == map[] && recency == []
    {
      modelCache, recency := map[], [];
    }
  }

  lemma RanksDistinct<M>(cache: Cache<M>, recency: seq<Path>)
    requires AllIn(recency, cache) && Falling(Stamps(cache, recency))
    ensures Distinct(recency)
  {
    var times := Stamps(cache, recency);
    forall i, j | 0 <= i < j < |recency| ensures recency[i] != recency[j] {
      assert times[i] > times[j];
    }
  }

  lemma RemoveIndex(s: seq<Path>, p: Path)
    requires Distinct(s)
    ensures Distinct(Remove(s, p)) && Elems(Remove(s, p)) == Elems(s) - {p}
    ensures p in s ==> |Remove(s, p)| == |s| - 1
  {
    if p in s {
      var k := IndexOf(s, p);
      assert s == s[..k] + [s[k]] + s[k + 1..];
    }
  }

  lemma FallingWithout(times: seq<real>, k: nat)
    requires Falling(times) && k < |times|
    ensures Falling(times[..k] + times[k + 1..])
  {
  }

  lemma FallingFrom(now: real, times: seq<real>)
    requires Falling(times) && forall i :: 0 <= i < |times| ==> times[i] < now
    ensures Falling([now] + times)
  {
  }

  lemma Promote<M>(cache: Cache<M>, recency: seq<Path>, p: Path, entry: Entry<M>)
    requires Ranks(cache, recency) && p in cache && Before(cache, entry.lastUsed)
    ensures Ranks(cache[p := entry], [p] + Remove(recency, p))
  {
    assert p in Elems(recency);
    RanksDistinct(cache, recency);
    RemoveIndex(recency, p);
    TakeOut(cache, recency, p);
    PutFirst(cache, Remove(recency, p), p, entry);
    Keyed(cache, p, entry);
    ElemsCons(p, Remove(recency, p));
  }

  lemma TakeOut<M>(cache: Cache<M>, recency: seq<Path>, p: Path)
    requires AllIn(recency, cache) && Falling(Stamps(cache, recency)) && p in recency
    ensures AllIn(Remove(recency, p), cache) && Falling(Stamps(cache, Remove(recency, p)))
  {
    var k, rest, times := IndexOf(recency, p), Remove(recency, p), Stamps(cache, recency);
    FallingWithout(times, k);
    assert Stamps(cache, rest) == times[..k] + times[k + 1..];
  }

  /** A new stamp for a path outside the list puts it in front. */
  lemma PutFirst<M>(cache: Cache<M>, rest: seq<Path>, p: Path, entry: Entry<M>)
    requires AllIn(rest, cache) && Falling(Stamps(cache, rest)) && p !in Elems(rest) && Before(cache, entry.lastUsed)
    ensures AllIn([p] + rest, cache[p := entry]) && Falling(Stamps(cache[p := entry], [p] + rest))
  {
    assert forall i :: 0 <= i < |rest| ==> rest[i] in Elems(rest);
    FallingFrom(entry.lastUsed, Stamps(cache, rest));
    assert Stamps(cache[p := entry], [p] + rest) == [entry.lastUsed] + Stamps(cache, rest);
  }

  lemma Admit<M>(cache: Cache<M>, recency: seq<Path>, p: Path, entry: Entry<M>)
    requires Ranks(cache, recency) && p !in cache && Before(cache, entry.lastUsed)
    ensures Ranks(cache[p := entry], [p] + recency)
  {
    assert p !in cache.Keys;
    PutFirst(cache, recency, p, entry);
    Keyed(cache, p, entry);
    ElemsCons(p, recency);
  }

  lemma LastIsOldest<M>(cache: Cache<M>, recency: seq<Path>)
    requires Ranks(cache, recency) && cache != map[]
    ensures recency != [] && IsOldest(cache, recency[|recency| - 1])
    ensures forall p :: IsOldest(cache, p) ==> p == recency[|recency| - 1]
  {
    var n, times := |recency| - 1, Stamps(cache, recency);
    assert n >= 0;
    forall q | q in cache ensures cache[recency[n]].lastUsed <= cache[q].lastUsed {
      assert q in Elems(recency);
      var i :| 0 <= i < |recency| && recency[i] == q;
      assert times[n] <= times[i];
    }
    forall p | IsOldest(cache, p) ensures p == recency[n] {
      assert p in Elems(recency);
      var i :| 0 <= i < |recency| && recency[i] == p;
      assert times[i] <= times[n];
    }
  }

  lemma EvictLast<M>(cache: Cache<M>, recency: seq<Path>)
    requires Ranks(cache, recency) && recency != []
    ensures Ranks(cache - {recency[|recency| - 1]}, DropLast(recency))
  {
    var n := |recency| - 1;
    var p, rest, left := recency[n], DropLast(recency), cache - {recency[n]};
    RanksDistinct(cache, recency);
    ElemsDropLast(recency);
    assert p in Elems(recency);
    assert left.Keys == cache.Keys - {p};
    assert forall i :: 0 <= i < |rest| ==> rest[i] in Elems(rest);
    assert AllIn(rest, left);
    assert Stamps(left, rest) == Stamps(cache, recency)[..n];
  }

  lemma Keyed<M>(cache: Cache<M>, p: Path, entry: Entry<M>)
    ensures cache[p := entry].Keys == cache.Keys + {p}
    ensures |cache[p := entry]| == if p in cache then |cache| else |cache| + 1
  {
    assert cache[p := entry].Keys == cache.Keys + {p};
    if p in cache {
      assert cache[p := entry].Keys == cache.Keys;
    }
  }

  lemma ElemsCons(p: Path, s: seq<Path>)
    ensures Elems([p] + s) == {p} + Elems(s)
  {
  }

  lemma ElemsDropLast(s: seq<Path>)
    requires s != [] && Distinct(s)
    ensures Elems(DropLast(s)) == Elems(s) - {s[|s| - 1]}
  {
    assert s == DropLast(s) + [s[|s| - 1]];
  }

  // ---------- Traces ----------

  datatype Request = Use(path: Path) | Clear

  lemma SplitLast(trace: seq<Request>)
    requires trace != [] && trace[|trace| - 1].Use?
    ensures trace == trace[..|trace| - 1] + [Use(trace[|trace| - 1].path)]
  {
  }

  /** The recency list after a trace, for a cache of a given size and a loader that loads exactly the paths `loads`. */
  function Cached(trace: seq<Request>, loads: Path -> bool, size: int): seq<Path> {
    if trace == [] then []
    else
      var before := Cached(trace[..|trace| - 1], loads, size);
      match trace[|trace| - 1]
      case Clear => []
      case Use(p) => Touch(before, p, loads(p), size)
  }

  /** The reference: reading the trace backwards to the last clear, every loadable path not in `seen` the first time it
      turns up. These are the distinct paths requested, the most recent first. */
  function Recents(trace: seq<Request>, loads: Path -> bool, seen: set<Path>): seq<Path> {
    if trace == [] || trace[|trace| - 1].Clear? then []
    else
      var p, before := trace[|trace| - 1].path, trace[..|trace| - 1];
      if p in seen || !loads(p) then Recents(before, loads, seen)
      else [p] + Recents(before, loads, seen + {p})
  }

  lemma {:induction false} RecentsDistinct(trace: seq<Request>, loads: Path -> bool, seen: set<Path>)
    ensures Distinct(Recents(trace, loads, seen))
    ensures forall i :: 0 <= i < |Recents(trace, loads, seen)| ==>
              Recents(trace, loads, seen)[i] !in seen && loads(Recents(trace, loads, seen)[i])
  {
    if trace != [] && trace[|trace| - 1].Use? {
      var p, before := trace[|trace| - 1].path, trace[..|trace| - 1];
      RecentsDistinct(before, loads, seen);
      RecentsDistinct(before, loads, seen + {p});
    }
  }

  lemma RemoveHead(p: Path, q: Path, s: seq<Path>)
    ensures Remove([p] + s, q) == if p == q then s else [p] + Remove(s, q)
  {
    assert ([p] + s)[1..] == s;
    if p != q && q in s {
      assert q in [p] + s;
    }
  }

  lemma {:induction false} SeeingOneMore(trace: seq<Request>, loads: Path -> bool, seen: set<Path>, p: Path)
    requires p !in seen
    ensures Recents(trace, loads, seen + {p}) == Remove(Recents(trace, loads, seen), p)
  {
    if trace != [] && trace[|trace| - 1].Use? {
      var q, before := trace[|trace| - 1].path, trace[..|trace| - 1];
      if q in seen || !loads(q) {
        SeeingOneMore(before, loads, seen, p);
      } else if q == p {
        RemoveHead(p, p, Recents(before, loads, seen + {p}));
        assert seen + {p} + {q} == seen + {p};
      } else {
        SeeingOneMore(before, loads, seen + {q}, p);
        assert seen + {q} + {p} == seen + {p} + {q};
        RemoveHead(q, p, Recents(before, loads, seen + {q}));
      }
    }
  }

  lemma RecentsStep(trace: seq<Request>, loads: Path -> bool, p: Path)
    ensures Recents(trace + [Use(p)], loads, {}) ==
              if loads(p) then [p] + Remove(Recents(trace, loads, {}), p) else Recents(trace, loads, {})
  {
    assert (trace + [Use(p)])[..|trace|] == trace;
    SeeingOneMore(trace, loads, {}, p);
  }

  lemma IndexInPrefix(all: seq<Path>, m: nat, p: Path)
    requires m <= |all| && Distinct(all)
    ensures p in all && IndexOf(all, p) < m <==> p in all[..m]
    ensures p in all[..m] ==> IndexOf(all[..m], p) == IndexOf(all, p)
  {
    if p in all && IndexOf(all, p) < m {
      assert all[..m][IndexOf(all, p)] == p;
    }
    if p in all[..m] {
      assert all[IndexOf(all[..m], p)] == p;
    }
  }

  lemma HitKeepsPrefix(all: seq<Path>, m: nat, p: Path)
    requires m <= |all| && Distinct(all) && p in all[..m]
    ensures p in all && Remove(all[..m], p) <= Remove(all, p) && |Remove(all[..m], p)| == m - 1
  {
    IndexInPrefix(all, m, p);
    var k := IndexOf(all, p);
    assert all[..m][k + 1..] == all[k + 1..m];
  }

  lemma MissKeepsPrefix(all: seq<Path>, m: nat, p: Path)
    requires m <= |all| && Distinct(all) && p !in all[..m]
    ensures all[..m] <= Remove(all, p)
  {
    if p in all {
      IndexInPrefix(all, m, p);
    }
  }

  lemma TouchKeepsPrefix(all: seq<Path>, m: nat, p: Path, loads: bool, size: int)
    requires m <= |all| && Distinct(all) && size >= 1
    requires !loads ==> p !in all
    ensures var next := Touch(all[..m], p, loads, size);
            var all' := if loads then [p] + Remove(all, p) else all;
            next <= all' && |next| == TouchSize(all, m, p, loads, size)
  {
    if p in all[..m] {
      HitKeepsPrefix(all, m, p);
    } else {
      MissKeepsPrefix(all, m, p);
      var rest := if m >= size then DropLast(all[..m]) else all[..m];
      assert rest <= all[..m];
    }
  }

  /** How many models stay. */
  function TouchSize(all: seq<Path>, m: nat, p: Path, loads: bool, size: int): int
    requires m <= |all|
  {
    if p in all[..m] then m
    else (if m >= size then (if m == 0 then 0 else m - 1) else m) + if loads then 1 else 0
  }

  /** Whatever the trace, failed loads included, the cache holds the most recently requested distinct paths: a prefix
      of the reference list. */
  lemma {:induction false} CachedIsMostRecent(trace: seq<Request>, loads: Path -> bool, size: int)
    requires size >= 1
    ensures Cached(trace, loads, size) <= Recents(trace, loads, {})
    ensures |Cached(trace, loads, size)| <= size
  {
    if trace != [] && trace[|trace| - 1].Use? {
      var p, before := trace[|trace| - 1].path, trace[..|trace| - 1];
      SplitLast(trace);
      var all, had := Recents(before, loads, {}), Cached(before, loads, size);
      CachedIsMostRecent(before, loads, size);
      RecentsDistinct(before, loads, {});
      RecentsStep(before, loads, p);
      assert all[..|had|] == had;
      TouchKeepsPrefix(all, |had|, p, loads(p), size);
    }
  }

  lemma SizeStep(before: seq<Request>, p: Path, loads: Path -> bool, size: int)
    requires size >= 1
    ensures var all, m := Recents(before, loads, {}), |Cached(before, loads, size)|;
            m <= |all| && m <= size
            && |Cached(before + [Use(p)], loads, size)| == TouchSize(all, m, p, loads(p), size)
  {
    var trace := before + [Use(p)];
    assert trace[..|before|] == before;
    CachedIsMostRecent(before, loads, size);
    RecentsDistinct(before, loads, {});
    var all, had := Recents(before, loads, {}), Cached(before, loads, size);
    assert all[..|had|] == had;
    TouchKeepsPrefix(all, |had|, p, loads(p), size);
  }

  /** The cache holds all it could: min(K, n) of the n distinct paths. */
  predicate Full(trace: seq<Request>, loads: Path -> bool, size: int) {
    |Cached(trace, loads, size)| == if size < |Recents(trace, loads, {})| then size else |Recents(trace, loads, {})|
  }

  /** A full cache stays full through a request exactly when the load does not fail or there was a slot to spare. */
  lemma StaysFullExactlyWhen(before: seq<Request>, p: Path, loads: Path -> bool, size: int)
    requires size >= 1 && Full(before, loads, size)
    ensures Full(before + [Use(p)], loads, size) <==> loads(p) || |Cached(before, loads, size)| < size
  {
    SizeStep(before, p, loads, size);
    RecentsDistinct(before, loads, {});
    RecentsStep(before, loads, p);
    var all, m := Recents(before, loads, {}), |Cached(before, loads, size)|;
    RemoveIndex(all, p);
    if p in all {
      IndexInPrefix(all, m, p);
    }
  }

  /** No load failed, among the first `k` requests, while all the slots were taken. */
  ghost predicate NoFailureOnFull(trace: seq<Request>, loads: Path -> bool, size: int, k: nat)
    requires k <= |trace|
  {
    forall i :: 0 <= i < k ==> !FailsOnFull(trace, loads, size, i)
  }

  ghost predicate FullThrough(trace: seq<Request>, loads: Path -> bool, size: int, k: nat)
    requires k <= |trace|
  {
    forall i :: 0 <= i <= k ==> Full(trace[..i], loads, size)
  }

  /** Over traces: the cache holds min(K, n) paths at every moment if and only if no load failed at a moment when all
      slots were taken. */
  lemma {:induction false} FullThroughoutExactlyWhen(trace: seq<Request>, loads: Path -> bool, size: int, k: nat)
    requires size >= 1 && k <= |trace|
    ensures FullThrough(trace, loads, size, k) <==> NoFailureOnFull(trace, loads, size, k)
  {
    if k > 0 {
      FullThroughoutExactlyWhen(trace, loads, size, k - 1);
      FullOneLonger(trace, loads, size, k);
      NoFailureOneLonger(trace, loads, size, k);
    } else {
      StartsFull(trace, loads, size);
    }
  }

  lemma StartsFull(trace: seq<Request>, loads: Path -> bool, size: int)
    requires size >= 1
    ensures FullThrough(trace, loads, size, 0)
  {
    assert trace[..0] == [];
  }

  predicate FailsOnFull(trace: seq<Request>, loads: Path -> bool, size: int, i: nat)
    requires i < |trace|
  {
    trace[i].Use? && !loads(trace[i].path) && |Cached(trace[..i], loads, size)| >= size
  }

  lemma FullOneLonger(trace: seq<Request>, loads: Path -> bool, size: int, k: nat)
    requires size >= 1 && 0 < k <= |trace|
    ensures FullThrough(trace, loads, size, k)
       <==> FullThrough(trace, loads, size, k - 1) && !FailsOnFull(trace, loads, size, k - 1)
  {
    FullOneMore(trace, loads, size, k);
    if FullThrough(trace, loads, size, k - 1) {
      FullNext(trace, loads, size, k - 1);
    }
  }

  lemma FullOneMore(trace: seq<Request>, loads: Path -> bool, size: int, k: nat)
    requires 0 < k <= |trace|
    ensures FullThrough(trace, loads, size, k)
       <==> FullThrough(trace, loads, size, k - 1) && Full(trace[..k], loads, size)
    ensures FullThrough(trace, loads, size, k - 1) ==> Full(trace[..k - 1], loads, size)
  {
  }

  lemma NoFailureOneLonger(trace: seq<Request>, loads: Path -> bool, size: int, k: nat)
    requires 0 < k <= |trace|
    ensures NoFailureOnFull(trace, loads, size, k)
       <==> NoFailureOnFull(trace, loads, size, k - 1) && !FailsOnFull(trace, loads, size, k - 1)
  {
  }

  lemma FullNext(trace: seq<Request>, loads: Path -> bool, size: int, i: nat)
    requires size >= 1 && i < |trace| && Full(trace[..i], loads, size)
    ensures Full(trace[..i + 1], loads, size) <==> !FailsOnFull(trace, loads, size, i)
  {
    assert trace[..i + 1] == trace[..i] + [trace[i]];
    FullStep(trace[..i], trace[i], loads, size);
  }

  lemma FullStep(before: seq<Request>, r: Request, loads: Path -> bool, size: int)
    requires size >= 1 && Full(before, loads, size)
    ensures Full(before + [r], loads, size)
       <==> (r.Use? ==> loads(r.path) || |Cached(before, loads, size)| < size)
  {
    if r.Use? {
      StaysFullExactlyWhen(before, r.path, loads, size);
    } else {
      assert (before + [r])[..|before|] == before;
    }
  }

  /** No load has failed since the last clear. */
  predicate AllLoad(trace: seq<Request>, loads: Path -> bool) {
    trace == [] || trace[|trace| - 1].Clear?
    || (loads(trace[|trace| - 1].path) && AllLoad(trace[..|trace| - 1], loads))
  }

  /** While loads succeed there are exactly min(K, n) of them: the K most recently requested of the n distinct paths. */
  lemma {:induction false} CachedIsFull(trace: seq<Request>, loads: Path -> bool, size: int)
    requires size >= 1 && AllLoad(trace, loads)
    ensures Full(trace, loads, size)
  {
    if trace != [] && trace[|trace| - 1].Use? {
      SplitLast(trace);
      CachedIsFull(trace[..|trace| - 1], loads, size);
      StaysFullExactlyWhen(trace[..|trace| - 1], trace[|trace| - 1].path, loads, size);
    }
  }

  /** A failed load on a full cache is the exception: the eviction has already happened, and a slot stays empty. */
  lemma FailedLoadCostsASlot()
    ensures var loads := (p: Path) => p != Path("bad");
            var trace := [Use(Path("good")), Use(Path("bad"))];
            Cached(trace, loads, 1) == [] && Recents(trace, loads, {}) == [Path("good")]
  {
    var loads := (p: Path) => p != Path("bad");
    var t1, t2 := [Use(Path("good"))], [Use(Path("good")), Use(Path("bad"))];
    assert t2[..1] == t1 && t1[..0] == [];
    assert Cached(t1, loads, 1) == [Path("good")];
    assert Recents(t1, loads, {}) == [Path("good")] + Recents([], loads, {} + {Path("good")});
  }

  lemma AsManyStep(before: seq<Request>, p: Path, loads: Path -> bool, size: int)
    requires size >= 1 && |Cached(before, loads, size)| <= |Cached(before, loads, size + 1)|
    ensures |Cached(before + [Use(p)], loads, size)| <= |Cached(before + [Use(p)], loads, size + 1)|
  {
    SizeStep(before, p, loads, size);
    SizeStep(before, p, loads, size + 1);
    LargerStaysLarger(Recents(before, loads, {}), |Cached(before, loads, size)|,
                      |Cached(before, loads, size + 1)|, p, loads(p), size);
  }

  lemma {:induction false} LargerCacheHoldsAsMany(trace: seq<Request>, loads: Path -> bool, size: int)
    requires size >= 1
    ensures |Cached(trace, loads, size)| <= |Cached(trace, loads, size + 1)|
  {
    if trace != [] && trace[|trace| - 1].Use? {
      var p, before := trace[|trace| - 1].path, trace[..|trace| - 1];
      SplitLast(trace);
      LargerCacheHoldsAsMany(before, loads, size);
      AsManyStep(before, p, loads, size);
    }
  }

  lemma LargerStaysLarger(all: seq<Path>, m: nat, n: nat, p: Path, loads: bool, size: int)
    requires m <= n <= |all| && m <= size && n <= size + 1 && size >= 1
    ensures TouchSize(all, m, p, loads, size) <= TouchSize(all, n, p, loads, size + 1)
  {
    assert all[..m] == all[..n][..m];
    if p !in all[..m] && p in all[..n] {
      assert m < n;
    }
  }

  /** Inclusion: on the same trace, what a cache of size K holds, one of size K + 1 holds too, in the same order. */
  lemma LargerCacheHoldsMore(trace: seq<Request>, loads: Path -> bool, size: int)
    requires size >= 1
    ensures Cached(trace, loads, size) <= Cached(trace, loads, size + 1)
  {
    CachedIsMostRecent(trace, loads, size);
    CachedIsMostRecent(trace, loads, size + 1);
    LargerCacheHoldsAsMany(trace, loads, size);
  }
}
