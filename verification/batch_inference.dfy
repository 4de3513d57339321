/** Batched and shared inference: analytics/src/analytics/core/shared_inference.py and the batch loop of
    orchestrator.py.

    Cameras put (engine, frame, future) on a queue; the loop takes a batch off it, groups it by engine, asks each engine
    once for all its frames and resolves the futures. The neural network is an oracle for a whole batch. That it treats
    the frames of a batch independently, and that asking it for certain classes filters what it finds, are hypotheses
    of the theorems that need them. */
module BatchInference {
  import opened Options

  const MAX_BATCH := 8

  type Side = n: int | n > 0 witness 1

  datatype Frame = Frame(pixels: int, width: Side, height: Side)

  /** What the network reports: boxes in pixels, or no box list at all. */
  datatype Box = Box(classId: int, confidence: real, x1: real, y1: real, x2: real, y2: real)

  datatype RawResult = RawResult(boxes: Option<seq<Box>>)

  datatype Detection = Detection(classId: int, className: string, confidence: real, bbox: seq<real>)

  datatype EngineName = EngineName(text: string)

  /** `net` is one call to the network for some frames and, if given, some classes; `prepare` is the downscaling of a
      frame before it; `names` are the network's class names. */
  datatype Engine = Engine(
    name: EngineName, allClasses: Option<set<int>>, prepare: Frame -> Frame, names: int -> string,
    net: (seq<Frame>, Option<set<int>>) -> seq<RawResult>)

  // ---------- Engines ----------

  function FilterByClass(detections: seq<Detection>, classes: set<int>): seq<Detection> {
    if detections == [] then []
    else if detections[0].classId in classes then [detections[0]] + FilterByClass(detections[1..], classes)
    else FilterByClass(detections[1..], classes)
  }

  /** A box as a detection, with its corners relative to the frame's size. */
  function Convert(names: int -> string, frame: Frame, box: Box): Detection {
    var w, h := frame.width as real, frame.height as real;
    Detection(box.classId, names(box.classId), box.confidence, [box.x1 / w, box.y1 / h, box.x2 / w, box.y2 / h])
  }

  function ConvertAll(names: int -> string, frame: Frame, boxes: seq<Box>): (detections: seq<Detection>)
    ensures |detections| == |boxes|
  {
    seq(|boxes|, i requires 0 <= i < |boxes| => Convert(names, frame, boxes[i]))
  }

  /** The detection is this box: its class under the network's name for it, its confidence, and its corners left, top,
      right and bottom as fractions of the frame's width and height. */
  predicate Shows(d: Detection, box: Box, names: int -> string, frame: Frame) {
    && d.classId == box.classId && d.className == names(box.classId) && d.confidence == box.confidence
    && |d.bbox| == 4
    && d.bbox[0] * frame.width as real == box.x1 && d.bbox[1] * frame.height as real == box.y1
    && d.bbox[2] * frame.width as real == box.x2 && d.bbox[3] * frame.height as real == box.y2
  }

  ghost predicate ShowsAll(ds: seq<Detection>, boxes: seq<Box>, names: int -> string, frame: Frame) {
    |ds| == |boxes| && forall k :: 0 <= k < |ds| ==> Shows(ds[k], boxes[k], names, frame)
  }

  lemma FractionOf(x: real, side: real)
    requires side > 0.0
    ensures (x / side) * side == x
  {
  }

  lemma ConvertShows(names: int -> string, frame: Frame, box: Box)
    ensures Shows(Convert(names, frame, box), box, names, frame)
  {
    FractionOf(box.x1, frame.width as real);
    FractionOf(box.y1, frame.height as real);
    FractionOf(box.x2, frame.width as real);
    FractionOf(box.y2, frame.height as real);
  }

  lemma ConvertAllShows(names: int -> string, frame: Frame, boxes: seq<Box>)
    ensures ShowsAll(ConvertAll(names, frame, boxes), boxes, names, frame)
  {
    forall k | 0 <= k < |boxes| ensures Shows(ConvertAll(names, frame, boxes)[k], boxes[k], names, frame) {
      ConvertShows(names, frame, boxes[k]);
    }
  }

  /** A box within the frame becomes fractions between 0 and 1, its corners in the order they had. */
  lemma CoordinatesAreFractions(names: int -> string, frame: Frame, box: Box, d: Detection)
    requires Shows(d, box, names, frame)
    requires 0.0 <= box.x1 <= box.x2 <= frame.width as real && 0.0 <= box.y1 <= box.y2 <= frame.height as real
    ensures 0.0 <= d.bbox[0] <= d.bbox[2] <= 1.0 && 0.0 <= d.bbox[1] <= d.bbox[3] <= 1.0
  {
    Within01(d.bbox[0], d.bbox[2], box.x1, box.x2, frame.width as real);
    Within01(d.bbox[1], d.bbox[3], box.y1, box.y2, frame.height as real);
  }

  lemma Within01(u: real, v: real, x: real, y: real, side: real)
    requires side > 0.0 && u * side == x && v * side == y && 0.0 <= x <= y <= side
    ensures 0.0 <= u <= v <= 1.0
  {
    ScaledInOrder(0.0, u, side);
    ScaledInOrder(u, v, side);
    ScaledInOrder(v, 1.0, side);
  }

  lemma ScaledInOrder(u: real, v: real, side: real)
    requires side > 0.0
    ensures u * side <= v * side <==> u <= v
  {
    assert (v - u) * side == v * side - u * side;
    assert v - u >= 0.0 <==> (v - u) * side >= 0.0;
  }

  function BoxesOf(result: RawResult): seq<Box> {
    if result.boxes.Some? then result.boxes.value else []
  }

  /** No classes, or an empty set of them, means all. */
  function Wanted(classes: Option<set<int>>): Option<set<int>> {
    if classes.None? || classes.value == {} then None else classes
  }

  /** One frame on its own. */
  function Predict(engine: Engine, frame: Frame, classes: Option<set<int>>): seq<Detection> {
    var prepared := engine.prepare(frame);
    var results := engine.net([prepared], Wanted(classes));
    if results == [] then [] else ConvertAll(engine.names, prepared, BoxesOf(results[0]))
  }

  /** A single prediction shows what the network finds on the prepared frame for the classes asked for; no classes and
      an empty set of them both mean all. */
  lemma PredictShows(engine: Engine, frame: Frame, classes: Option<set<int>>)
    ensures var wanted := if classes == Some({}) then None else classes;
            var results := engine.net([engine.prepare(frame)], wanted);
            var boxes := if results != [] && results[0].boxes.Some? then results[0].boxes.value else [];
            ShowsAll(Predict(engine, frame, classes), boxes, engine.names, engine.prepare(frame))
  {
    var prepared := engine.prepare(frame);
    var results := engine.net([prepared], Wanted(classes));
    if results != [] {
      ConvertAllShows(engine.names, prepared, BoxesOf(results[0]));
    }
  }

  /** The class filter keeps exactly the detections of the given classes, in their order and number. */
  lemma {:induction false} FilterExact(ds: seq<Detection>, classes: set<int>)
    ensures forall d :: multiset(FilterByClass(ds, classes))[d] == if d.classId in classes then multiset(ds)[d] else 0
  {
    if ds != [] {
      FilterExact(ds[1..], classes);
      assert ds == [ds[0]] + ds[1..];
    }
  }

  lemma {:induction false} FilterInOrder(ds: seq<Detection>, es: seq<Detection>, classes: set<int>)
    ensures FilterByClass(ds + es, classes) == FilterByClass(ds, classes) + FilterByClass(es, classes)
  {
    if ds == [] {
      assert ds + es == es;
    } else {
      FilterInOrder(ds[1..], es, classes);
      assert (ds + es)[1..] == ds[1..] + es;
    }
  }

  function PrepareAll(engine: Engine, frames: seq<Frame>): (prepared: seq<Frame>)
    ensures |prepared| == |frames|
  {
    seq(|frames|, i requires 0 <= i < |frames| => engine.prepare(frames[i]))
  }

  /** Hypothesis: a batch gives one result per frame, each what the frame would give on its own. */
  ghost predicate Independent(engine: Engine) {
    forall frames, classes :: OnePerFrame(engine, frames, classes)
  }

  ghost predicate OnePerFrame(engine: Engine, frames: seq<Frame>, classes: Option<set<int>>) {
    var results := engine.net(frames, classes);
    |results| == |frames| && forall i :: 0 <= i < |frames| ==> AsAlone(engine, frames[i], classes, results[i])
  }

  predicate AsAlone(engine: Engine, frame: Frame, classes: Option<set<int>>, result: RawResult) {
    |engine.net([frame], classes)| == 1 && engine.net([frame], classes)[0] == result
  }

  /** One call for several frames. The results are converted in order; should there be fewer results than frames, the
      frames at the end get nothing. From a network that treats frames independently each frame gets what it would have
      got on its own. */
  method PredictBatch(engine: Engine, frames: seq<Frame>, classes: Option<set<int>>)
    returns (output: seq<seq<Detection>>)
    ensures var prepared := PrepareAll(engine, frames);
            var results := engine.net(prepared, Wanted(classes));
            && |output| == (if |results| < |frames| then |results| else |frames|)
            && forall i :: 0 <= i < |output| ==>
                 ShowsAll(output[i], if results[i].boxes.Some? then results[i].boxes.value else [], engine.names,
                          engine.prepare(frames[i]))
    ensures Independent(engine) ==>
              |output| == |frames|
              && forall i :: 0 <= i < |frames| ==> output[i] == Predict(engine, frames[i], classes)
  {
    var prepared := PrepareAll(engine, frames);
    var results := engine.net(prepared, Wanted(classes));
    output := [];
    var n := if |results| < |frames| then |results| else |frames|;
    for i := 0 to n
      invariant |output| == i
      invariant forall k :: 0 <= k < i ==> output[k] == ConvertAll(engine.names, prepared[k], BoxesOf(results[k]))
    {
      var detections := [];
      if results[i].boxes.Some? {
        var boxes := results[i].boxes.value;
        for j := 0 to |boxes|
          invariant detections == ConvertAll(engine.names, prepared[i], boxes[..j])
        {
          detections := detections + [Convert(engine.names, prepared[i], boxes[j])];
          assert boxes[..j + 1] == boxes[..j] + [boxes[j]];
        }
        assert boxes[..|boxes|] == boxes;
      }
      output := output + [detections];
    }
    forall i | 0 <= i < |output|
      ensures ShowsAll(output[i], BoxesOf(results[i]), engine.names, engine.prepare(frames[i]))
    {
      ConvertAllShows(engine.names, prepared[i], BoxesOf(results[i]));
    }
    if Independent(engine) {
      assert OnePerFrame(engine, prepared, Wanted(classes));
      forall i | 0 <= i < |frames| ensures output[i] == Predict(engine, frames[i], classes) {
        assert AsAlone(engine, prepared[i], Wanted(classes), results[i]);
      }
    }
  }

  // ---------- Futures and the queue ----------

  datatype FutureState = Pending | Done(result: seq<Detection>) | Failed | Cancelled

  class InferenceFuture {
    var state: FutureState

    constructor ()
      ensures state == Pending
    {
      state := Pending;
    }

    /** Setting a future that is already done is an error, so it is ruled out here. */
    method SetResult(result: seq<Detection>)
      requires state.Pending?
      modifies this
      ensures state == Done(result)
    {
      state := Done(result);
    }

    method SetException()
      requires state.Pending?
      modifies this
      ensures state == Failed
    {
      state := Failed;
    }

    /** The camera that waits for it gives up. */
    method Cancel()
      requires state.Pending?
      modifies this
      ensures state == Cancelled
    {
      state := Cancelled;
    }
  }

  datatype Item = Item(engine: Engine, frame: Frame, future: InferenceFuture)

  function Futures(items: seq<Item>): set<InferenceFuture> {
    set i | 0 <= i < |items| :: items[i].future
  }

  /** Every camera creates a future of its own for each frame. */
  predicate OwnFutures(items: seq<Item>) {
    forall i, j :: 0 <= i < j < |items| ==> items[i].future != items[j].future
  }

  /** Engines are registered under their names. */
  ghost predicate NamesIdentify(items: seq<Item>) {
    forall i, j :: 0 <= i < |items| && 0 <= j < |items| && items[i].engine.name == items[j].engine.name ==>
      items[i].engine == items[j].engine
  }

  ghost predicate AllIndependent(items: seq<Item>) {
    forall i :: 0 <= i < |items| ==> Independent(items[i].engine)
  }

  /** What a completed round makes of an item's future. Those in `withdrawn` were given up by their cameras while the
      round waited for its turn on the GPU. */
  ghost function Settled(before: FutureState, item: Item, raises: EngineName -> bool,
                         withdrawn: set<InferenceFuture>): FutureState
  {
    if !before.Pending? then before
    else if item.future in withdrawn then Cancelled
    else if raises(item.engine.name) then Failed
    else Done(Predict(item.engine, item.frame, item.engine.allClasses))
  }

  // ---------- One engine ----------

  /** What happens to the futures while the round waits for the GPU. */
  method AwaitTurn(items: seq<Item>, withdrawn: set<InferenceFuture>)
    requires OwnFutures(items)
    modifies Futures(items)
    ensures forall i :: 0 <= i < |items| ==>
              items[i].future.state
              == if old(items[i].future.state).Pending? && items[i].future in withdrawn then Cancelled
                 else old(items[i].future.state)
  {
    for k := 0 to |items|
      invariant forall i :: 0 <= i < k ==>
                  items[i].future.state
                  == if old(items[i].future.state).Pending? && items[i].future in withdrawn then Cancelled
                     else old(items[i].future.state)
      invariant forall i :: k <= i < |items| ==> items[i].future.state == old(items[i].future.state)
    {
      assert items[k].future in Futures(items);
      if items[k].future in withdrawn && items[k].future.state.Pending? {
        items[k].future.Cancel();
      }
    }
  }

  method PredictGroup(engine: Engine, frames: seq<Frame>) returns (output: seq<seq<Detection>>)
    requires Independent(engine)
    ensures |output| == |frames|
    ensures forall i :: 0 <= i < |frames| ==> output[i] == Predict(engine, frames[i], engine.allClasses)
  {
    output := PredictBatch(engine, frames, engine.allClasses);
  }

  /** One call to an engine for the frames of all its items. */
  method ResolveGroup(items: seq<Item>, raises: EngineName -> bool, withdrawn: set<InferenceFuture>)
    requires items != [] && OwnFutures(items) && Independent(items[0].engine)
    requires forall i :: 0 <= i < |items| ==> items[i].engine == items[0].engine
    modifies Futures(items)
    ensures forall i :: 0 <= i < |items| ==>
              items[i].future.state == Settled(old(items[i].future.state), items[i], raises, withdrawn)
  {
    AwaitTurn(items, withdrawn);
    label turn:
    var engine := items[0].engine;
    var frames := seq(|items|, i requires 0 <= i < |items| => items[i].frame);
    if raises(engine.name) {
      for k := 0 to |items|
        invariant forall i :: 0 <= i < k ==>
                    items[i].future.state == if old@turn(items[i].future.state).Pending? then Failed
                                             else old@turn(items[i].future.state)
        invariant forall i :: k <= i < |items| ==> items[i].future.state == old@turn(items[i].future.state)
      {
        assert items[k].future in Futures(items);
        if items[k].future.state.Pending? {
          items[k].future.SetException();
        }
      }
      return;
    }
    var allDetections := PredictGroup(engine, frames);
    for k := 0 to |items|
      invariant forall i :: 0 <= i < k ==>
                  items[i].future.state
                  == if old@turn(items[i].future.state).Pending?
                     then Done(Predict(items[i].engine, items[i].frame, items[i].engine.allClasses))
                     else old@turn(items[i].future.state)
      invariant forall i :: k <= i < |items| ==> items[i].future.state == old@turn(items[i].future.state)
    {
      assert items[k].future in Futures(items);
      if items[k].future.state.Pending? {
        items[k].future.SetResult(allDetections[k]);
      }
    }
  }

  // ---------- Grouping ----------

  function Group(items: seq<Item>, name: EngineName): seq<Item> {
    if items == [] then []
    else
      var n := |items| - 1;
      if items[n].engine.name == name then Group(items[..n], name) + [items[n]] else Group(items[..n], name)
  }

  lemma {:induction false} GroupExact(items: seq<Item>, name: EngineName)
    ensures forall i :: 0 <= i < |Group(items, name)| ==>
              Group(items, name)[i] in items && Group(items, name)[i].engine.name == name
    ensures forall i :: 0 <= i < |items| && items[i].engine.name == name ==> items[i] in Group(items, name)
    ensures OwnFutures(items) ==> OwnFutures(Group(items, name))
  {
    if items != [] {
      var n := |items| - 1;
      GroupExact(items[..n], name);
      var before := Group(items[..n], name);
      if OwnFutures(items) {
        forall i | 0 <= i < |before| ensures before[i].future != items[n].future {
          assert before[i] in items[..n];
        }
      }
    }
  }

  predicate DistinctNames(names: seq<EngineName>) {
    forall i, j :: 0 <= i < j < |names| ==> names[i] != names[j]
  }

  /** The per-engine lists, and the engine names in the order in which they first turn up. */
  method GroupByEngine(batch: seq<Item>) returns (names: seq<EngineName>, byEngine: map<EngineName, seq<Item>>)
    ensures DistinctNames(names)
    ensures forall i :: 0 <= i < |names| ==> names[i] in byEngine && byEngine[names[i]] == Group(batch, names[i]) != []
    ensures forall i :: 0 <= i < |batch| ==> batch[i].engine.name in names
  {
    names, byEngine := [], map[];
    for k := 0 to |batch|
      invariant DistinctNames(names)
      invariant forall name :: name in names <==> name in byEngine
      invariant forall name :: name in byEngine ==> byEngine[name] == Group(batch[..k], name) != []
      invariant forall i :: 0 <= i < k ==> batch[i].engine.name in names
      invariant forall name :: name !in byEngine ==> Group(batch[..k], name) == []
    {
      var name := batch[k].engine.name;
      assert batch[..k + 1][..k] == batch[..k];
      if name in byEngine {
        byEngine := byEngine[name := byEngine[name] + [batch[k]]];
      } else {
        byEngine := byEngine[name := [batch[k]]];
        names := names + [name];
      }
    }
    assert batch[..|batch|] == batch;
  }

  // ---------- A round ----------

  /** Grouping and resolving a whole batch: every future that is still pending at its turn gets exactly what its own
      engine gives for its own frame, or the failure of that engine's call; every other future is left alone. */
  method ResolveBatch(batch: seq<Item>, raises: EngineName -> bool, withdrawn: set<InferenceFuture>)
    requires OwnFutures(batch) && NamesIdentify(batch) && AllIndependent(batch)
    modifies Futures(batch)
    ensures forall i :: 0 <= i < |batch| ==>
              batch[i].future.state == Settled(old(batch[i].future.state), batch[i], raises, withdrawn)
  {
    var names, byEngine := GroupByEngine(batch);
    for k := 0 to |names|
      invariant forall i :: 0 <= i < |batch| ==>
                  batch[i].future.state
                  == if batch[i].engine.name in names[..k]
                     then Settled(old(batch[i].future.state), batch[i], raises, withdrawn)
                     else old(batch[i].future.state)
    {
      var items := byEngine[names[k]];
      GroupExact(batch, names[k]);
      SameEngine(batch, names[k]);
      assert items[0] in batch;
      GroupFutures(batch, names[k]);
      label before:
      ResolveGroup(items, raises, withdrawn);
      forall i | 0 <= i < |batch|
        ensures batch[i].future.state
             == if batch[i].engine.name in names[..k + 1]
                then Settled(old(batch[i].future.state), batch[i], raises, withdrawn)
                else old(batch[i].future.state)
      {
        NextName(names, k, batch[i].engine.name);
        if batch[i].engine.name == names[k] {
          var j :| 0 <= j < |items| && items[j] == batch[i];
        } else {
          assert batch[i].future !in Futures(items);
          assert batch[i].future.state == old@before(batch[i].future.state);
        }
      }
    }
    assert names[..|names|] == names;
  }

  lemma NextName(names: seq<EngineName>, k: nat, name: EngineName)
    requires k < |names| && DistinctNames(names)
    ensures name in names[..k + 1] <==> name in names[..k] || name == names[k]
    ensures names[k] !in names[..k]
  {
    assert names[..k + 1] == names[..k] + [names[k]];
  }

  lemma SameEngine(batch: seq<Item>, name: EngineName)
    requires NamesIdentify(batch)
    ensures var items := Group(batch, name);
            forall i :: 0 <= i < |items| ==> items[i].engine == items[0].engine
  {
    GroupExact(batch, name);
    var items := Group(batch, name);
    forall i | 0 <= i < |items| ensures items[i].engine == items[0].engine {
      assert items[i] in batch && items[0] in batch;
    }
  }

  lemma GroupFutures(batch: seq<Item>, name: EngineName)
    requires OwnFutures(batch)
    ensures Futures(Group(batch, name)) <= Futures(batch)
    ensures forall i :: 0 <= i < |batch| && batch[i].engine.name != name ==>
              batch[i].future !in Futures(Group(batch, name))
  {
    GroupExact(batch, name);
    var items := Group(batch, name);
    forall f | f in Futures(items) ensures f in Futures(batch) {
      var j :| 0 <= j < |items| && items[j].future == f;
      assert items[j] in batch;
    }
    forall i | 0 <= i < |batch| && batch[i].engine.name != name ensures batch[i].future !in Futures(items) {
      forall j | 0 <= j < |items| ensures items[j].future != batch[i].future {
        assert items[j] in batch;
        var m :| 0 <= m < |batch| && batch[m] == items[j];
      }
    }
  }

  class FrameQueue {
    var items: seq<Item>

    constructor ()
      ensures items == []
    {
      items := [];
    }

    method Put(item: Item)
      modifies this
      ensures items == old(items) + [item]
    {
      items := items + [item];
    }

    /** Several cameras in turn. */
    method Arrive(more: seq<Item>)
      modifies this
      ensures items == old(items) + more
    {
      items := items + more;
    }

    method Get() returns (item: Item)
      requires items != []
      modifies this
      ensures item == old(items)[0] && items == old(items)[1..]
    {
      item := items[0];
      items := items[1..];
    }
  }

  /** Collecting a batch: the first item is waited for, more are taken, in order, until there are eight, the window
      closes or a wait for the next one times out. `arriving` is what cameras put on the queue meanwhile,
      `arrivals(k)` how much of it comes during the wait with `k` items in hand, `closes(k)` whether the window has
      closed by then. What comes later is returned as `late`. */
  method CollectBatch(queue: FrameQueue, arriving: seq<Item>, arrivals: nat -> nat, closes: nat -> bool)
    returns (batch: seq<Item>, late: seq<Item>)
    requires queue.items != [] || (arriving != [] && arrivals(0) > 0)
    modifies queue
    ensures batch + queue.items + late == old(queue.items) + arriving
    ensures 1 <= |batch| <= 8
    ensures |batch| == 8 || queue.items == [] || closes(|batch|)
    ensures forall k: nat :: 1 <= k < |batch| ==> !closes(k)
  {
    ghost var all := queue.items + arriving;
    late := ArriveNow(queue, arriving, arrivals(0));
    var item := queue.Get();
    batch := [item];
    while |batch| < MAX_BATCH
      invariant batch + queue.items + late == all
      invariant 1 <= |batch| <= MAX_BATCH
      invariant forall k: nat :: 1 <= k < |batch| ==> !closes(k)
    {
      if closes(|batch|) {
        break;
      }
      assert batch + queue.items + late == batch + (queue.items + late);
      late := ArriveNow(queue, late, arrivals(|batch|));
      assert batch + (queue.items + late) == batch + queue.items + late;
      if queue.items == [] {
        break;
      }
      item := queue.Get();
      assert batch + ([item] + queue.items) == batch + [item] + queue.items;
      batch := batch + [item];
    }
  }

  /** The first `n` of the coming items arrive. */
  method ArriveNow(queue: FrameQueue, coming: seq<Item>, n: nat) returns (late: seq<Item>)
    modifies queue
    ensures queue.items + late == old(queue.items) + coming
    ensures old(queue.items) <= queue.items && (coming != [] && n > 0 ==> queue.items != [])
  {
    var m := if n < |coming| then n else |coming|;
    queue.Arrive(coming[..m]);
    late := coming[m..];
    assert coming[..m] + late == coming;
  }

  /** One completed round of the loop: it takes a prefix of what was on the queue or arrived while it collected, and
      settles exactly those futures. */
  method Round(queue: FrameQueue, arriving: seq<Item>, arrivals: nat -> nat, closes: nat -> bool,
               raises: EngineName -> bool, withdrawn: set<InferenceFuture>)
    returns (batch: seq<Item>, late: seq<Item>)
    requires queue.items != [] || (arriving != [] && arrivals(0) > 0)
    requires OwnFutures(queue.items + arriving) && NamesIdentify(queue.items + arriving)
    requires AllIndependent(queue.items + arriving)
    modifies queue, Futures(queue.items + arriving)
    ensures batch + queue.items + late == old(queue.items) + arriving && 1 <= |batch| <= 8
    ensures forall i :: 0 <= i < |old(queue.items) + arriving| ==>
              var item := (old(queue.items) + arriving)[i];
              item.future.state == if i < |batch| then Settled(old(item.future.state), item, raises, withdrawn)
                                   else old(item.future.state)
  {
    ghost var all := queue.items + arriving;
    batch, late := CollectBatch(queue, arriving, arrivals, closes);
    assert batch <= all by { assert batch + (queue.items + late) == all; }
    BatchFutures(batch, all);
    ResolveBatch(batch, raises, withdrawn);
    forall i | 0 <= i < |all|
      ensures all[i].future.state
           == if i < |batch| then Settled(old(all[i].future.state), all[i], raises, withdrawn)
              else old(all[i].future.state)
    {
      if i < |batch| {
        assert all[i] == batch[i];
      } else {
        assert all[i].future !in Futures(batch);
      }
    }
  }

  lemma BatchFutures(batch: seq<Item>, all: seq<Item>)
    requires batch <= all && OwnFutures(all) && NamesIdentify(all) && AllIndependent(all)
    ensures Futures(batch) <= Futures(all) && OwnFutures(batch) && NamesIdentify(batch) && AllIndependent(batch)
    ensures forall i :: |batch| <= i < |all| ==> all[i].future !in Futures(batch)
  {
    assert forall i :: 0 <= i < |batch| ==> batch[i] == all[i];
  }

  /** Cancellation while collecting: whatever is in hand or still queued is resolved as empty, if it is not done. */
  method CancelRound(batch: seq<Item>, queue: FrameQueue)
    modifies queue, Futures(batch), Futures(queue.items)
    ensures queue.items == []
    ensures forall i :: 0 <= i < |batch + old(queue.items)| ==>
              (batch + old(queue.items))[i].future.state
              == if old((batch + queue.items)[i].future.state).Pending? then Done([])
                 else old((batch + queue.items)[i].future.state)
  {
    var all := batch;
    while queue.items != []
      invariant all + queue.items == batch + old(queue.items)
      invariant forall f: InferenceFuture :: f in Futures(batch + old(queue.items)) ==> f.state == old(f.state)
      decreases |queue.items|
    {
      var item := queue.Get();
      all := all + [item];
    }
    assert all == batch + old(queue.items);
    assert forall i :: 0 <= i < |all| ==> all[i].future in Futures(batch) + Futures(old(queue.items));
    for k := 0 to |all|
      invariant queue.items == []
      invariant forall i :: 0 <= i < |all| ==>
                  all[i].future.state
                  == if old(all[i].future.state).Pending? && all[i].future in Futures(all[..k]) then Done([])
                     else old(all[i].future.state)
    {
      assert Futures(all[..k + 1]) == Futures(all[..k]) + {all[k].future};
      if all[k].future.state.Pending? {
        all[k].future.SetResult([]);
      }
    }
    assert all[..|all|] == all;
    assert forall i :: 0 <= i < |all| ==> all[i].future in Futures(all);
  }

  // ---------- Sharing one call between plugins ----------

  /** The COCO classes each plugin looks for; a plugin with a model of its own has none. */
  function PluginClasses(plugin: string): set<int> {
    if plugin in ["intrusion", "people_count", "person_detection"] then {0}
    else if plugin in ["vehicle_count", "lpr", "vehicle_detection", "speed"] then {2, 3, 5, 7}
    else if plugin == "biker_detection" then {0, 1}
    else {}
  }

  /** The plugins that may share the engine of object.pt. */
  const SHARED_PLUGINS := [
    "intrusion", "people_count", "person_detection", "vehicle_detection", "vehicle_count", "speed"]

  /** The table: persons, the four kinds of vehicle, persons and bicycles; the sharing plugins look for the first two.
      */
  lemma PluginTable()
    ensures forall p :: p in ["intrusion", "people_count", "person_detection"] ==> PluginClasses(p) == {0}
    ensures forall p :: p in ["vehicle_count", "lpr", "vehicle_detection", "speed"] ==> PluginClasses(p) == {2, 3, 5, 7}
    ensures PluginClasses("biker_detection") == {0, 1}
    ensures forall p :: p in ["horse_cart", "fire_smoke", "ppe_detection", "motion"] ==> PluginClasses(p) == {}
    ensures multiset(SHARED_PLUGINS) == multiset{"intrusion", "people_count", "person_detection", "vehicle_detection",
                                                 "vehicle_count", "speed"}
  {
  }

  /** The classes the shared engine is asked for: the union over the loaded plugins that share it. */
  method BuildUnion(loaded: seq<string>) returns (allClasses: set<int>)
    ensures forall p :: p in SHARED_PLUGINS && p in loaded ==> PluginClasses(p) <= allClasses
    ensures forall c :: c in allClasses ==> exists p :: p in SHARED_PLUGINS && p in loaded && c in PluginClasses(p)
  {
    allClasses := {};
    for k := 0 to |SHARED_PLUGINS|
      invariant forall i :: 0 <= i < k && SHARED_PLUGINS[i] in loaded ==> PluginClasses(SHARED_PLUGINS[i]) <= allClasses
      invariant forall c :: c in allClasses ==> exists p :: p in SHARED_PLUGINS && p in loaded && c in PluginClasses(p)
    {
      if SHARED_PLUGINS[k] in loaded {
        allClasses := allClasses + PluginClasses(SHARED_PLUGINS[k]);
      }
    }
  }

  function FilterBoxes(boxes: seq<Box>, classes: set<int>): seq<Box> {
    if boxes == [] then []
    else if boxes[0].classId in classes then [boxes[0]] + FilterBoxes(boxes[1..], classes)
    else FilterBoxes(boxes[1..], classes)
  }

  /** All the boxes the network finds on a frame. */
  function Found(engine: Engine, frame: Frame, classes: Option<set<int>>): seq<Box> {
    var results := engine.net([frame], classes);
    if results == [] then [] else BoxesOf(results[0])
  }

  /** Hypothesis: asked for some classes, the network reports those of the boxes it would report anyway. */
  ghost predicate FiltersClasses(engine: Engine) {
    forall frame, classes :: classes != {} ==>
      Found(engine, frame, Some(classes)) == FilterBoxes(Found(engine, frame, None), classes)
  }

  lemma {:induction false} FilterTwice(boxes: seq<Box>, union: set<int>, classes: set<int>)
    requires classes <= union
    ensures FilterBoxes(FilterBoxes(boxes, union), classes) == FilterBoxes(boxes, classes)
  {
    if boxes != [] {
      FilterTwice(boxes[1..], union, classes);
      if boxes[0].classId in union {
        var rest := FilterBoxes(boxes[1..], union);
        assert ([boxes[0]] + rest)[1..] == rest;
      }
    }
  }

  lemma {:induction false} ConvertThenFilter(names: int -> string, frame: Frame, boxes: seq<Box>, classes: set<int>)
    ensures FilterByClass(ConvertAll(names, frame, boxes), classes)
         == ConvertAll(names, frame, FilterBoxes(boxes, classes))
  {
    if boxes != [] {
      ConvertThenFilter(names, frame, boxes[1..], classes);
      assert ConvertAll(names, frame, boxes)[1..] == ConvertAll(names, frame, boxes[1..]);
    }
  }

  lemma {:induction false} FilterNone(detections: seq<Detection>)
    ensures FilterByClass(detections, {}) == []
  {
    if detections != [] {
      FilterNone(detections[1..]);
    }
  }

  lemma PredictIsFound(engine: Engine, frame: Frame, classes: Option<set<int>>)
    ensures var prepared := engine.prepare(frame);
            Predict(engine, frame, classes)
            == ConvertAll(engine.names, prepared, Found(engine, prepared, Wanted(classes)))
  {
  }

  /** Filtering the shared result by a plugin's classes is a private prediction for those classes, except for a plugin
      without classes on a frame that shows something: predicting for no classes means for all of them. */
  lemma SharingIsInvisible(engine: Engine, frame: Frame, union: set<int>, classes: set<int>)
    requires FiltersClasses(engine) && classes <= union
    ensures FilterByClass(Predict(engine, frame, Some(union)), classes) == Predict(engine, frame, Some(classes))
       <==> classes != {} || Predict(engine, frame, None) == []
  {
    var prepared := engine.prepare(frame);
    PredictIsFound(engine, frame, Some(union));
    PredictIsFound(engine, frame, Some(classes));
    PredictIsFound(engine, frame, None);
    if classes == {} {
      FilterNone(Predict(engine, frame, Some(union)));
    } else {
      ConvertThenFilter(engine.names, prepared, Found(engine, prepared, Some(union)), classes);
      FilterTwice(Found(engine, prepared, None), union, classes);
    }
  }

  /** No plugin that shares the engine is such an exception. */
  lemma SharedPluginsSeeTheirOwn(engine: Engine, frame: Frame, union: set<int>, plugin: string)
    requires FiltersClasses(engine) && plugin in SHARED_PLUGINS && PluginClasses(plugin) <= union
    ensures FilterByClass(Predict(engine, frame, Some(union)), PluginClasses(plugin))
         == Predict(engine, frame, Some(PluginClasses(plugin)))
  {
    assert 0 in PluginClasses(plugin) || 2 in PluginClasses(plugin);
    SharingIsInvisible(engine, frame, union, PluginClasses(plugin));
  }

  /** The cameras' side: a future of its own for each frame, and the item on the queue. */
  method Submit(queue: FrameQueue, engine: Engine, frames: seq<Frame>) returns (futures: seq<InferenceFuture>)
    modifies queue
    ensures |futures| == |frames|
    ensures forall i :: 0 <= i < |futures| ==> fresh(futures[i]) && futures[i].state == Pending
    ensures forall i, j :: 0 <= i < j < |futures| ==> futures[i] != futures[j]
    ensures queue.items == old(queue.items) + ItemsFor(engine, frames, futures)
  {
    futures := [];
    for k := 0 to |frames|
      invariant |futures| == k
      invariant forall i :: 0 <= i < k ==> fresh(futures[i]) && futures[i].state == Pending
      invariant forall i, j :: 0 <= i < j < k ==> futures[i] != futures[j]
      invariant queue.items == old(queue.items) + ItemsFor(engine, frames[..k], futures)
    {
      var future := new InferenceFuture();
      queue.Put(Item(engine, frames[k], future));
      assert ItemsFor(engine, frames[..k + 1], futures + [future])
          == ItemsFor(engine, frames[..k], futures) + [Item(engine, frames[k], future)];
      futures := futures + [future];
    }
    assert frames[..|frames|] == frames;
  }

  function ItemsFor(engine: Engine, frames: seq<Frame>, futures: seq<InferenceFuture>): (items: seq<Item>)
    requires |frames| == |futures|
  {
    seq(|frames|, i requires 0 <= i < |frames| => Item(engine, frames[i], futures[i]))
  }

  /** The cameras submit their frames and a round is completed: what becomes of each camera's future. */
  method ServeRound(engine: Engine, frames: seq<Frame>, closes: nat -> bool, raises: EngineName -> bool,
                    givesUp: nat -> bool)
    returns (futures: seq<InferenceFuture>, served: nat)
    requires frames != [] && Independent(engine)
    ensures |futures| == |frames| && 1 <= served <= |frames| && served <= MAX_BATCH
    ensures forall i :: 0 <= i < |frames| ==>
              futures[i].state == if i >= served then Pending
                                  else if givesUp(i) then Cancelled
                                  else if raises(engine.name) then Failed
                                  else Done(Predict(engine, frames[i], engine.allClasses))
  {
    var queue := new FrameQueue();
    futures := Submit(queue, engine, frames);
    var withdrawn := Those(futures, givesUp);
    ghost var items := ItemsFor(engine, frames, futures);
    assert queue.items + [] == items;
    ItemsAreOwn(engine, frames, futures);
    assert AllIndependent(items);
    assert forall f :: f in Futures(queue.items + []) ==> fresh(f);
    served := Serve(queue, items, closes, raises, withdrawn);
    forall i | 0 <= i < |frames|
      ensures futures[i].state == if i >= served then Pending
                                  else if givesUp(i) then Cancelled
                                  else if raises(engine.name) then Failed
                                  else Done(Predict(engine, frames[i], engine.allClasses))
    {
      assert items[i] == Item(engine, frames[i], futures[i]);
    }
  }

  /** A round in which nothing more arrives. */
  method Serve(queue: FrameQueue, ghost items: seq<Item>, closes: nat -> bool, raises: EngineName -> bool,
               withdrawn: set<InferenceFuture>)
    returns (served: nat)
    requires queue.items == items != [] && OwnFutures(items) && NamesIdentify(items) && AllIndependent(items)
    modifies queue, Futures(items)
    ensures 1 <= served <= |items| && served <= MAX_BATCH
    ensures forall i :: 0 <= i < |items| ==>
              items[i].future.state
              == if i < served then Settled(old(items[i].future.state), items[i], raises, withdrawn)
                 else old(items[i].future.state)
  {
    assert queue.items + [] == items;
    var batch, late := Round(queue, [], k => 0, closes, raises, withdrawn);
    served := |batch|;
    assert |batch + queue.items + late| == |items|;
  }

  lemma ItemsAreOwn(engine: Engine, frames: seq<Frame>, futures: seq<InferenceFuture>)
    requires |frames| == |futures| && forall i, j :: 0 <= i < j < |futures| ==> futures[i] != futures[j]
    ensures OwnFutures(ItemsFor(engine, frames, futures)) && NamesIdentify(ItemsFor(engine, frames, futures))
    ensures forall f :: f in Futures(ItemsFor(engine, frames, futures)) ==> f in futures
  {
  }

  function Those(futures: seq<InferenceFuture>, chosen: nat -> bool): (those: set<InferenceFuture>)
    requires forall i, j :: 0 <= i < j < |futures| ==> futures[i] != futures[j]
    ensures forall i :: 0 <= i < |futures| ==> (futures[i] in those <==> chosen(i))
  {
    set i | 0 <= i < |futures| && chosen(i) :: futures[i]
  }

  /** The path as a whole: the shared engine is set up for the loaded plugins, the cameras submit their frames, a
      round is completed. For every frame it served whose camera has not given up, what each sharing plugin filters
      out of the future's result is what a private call on that frame for that plugin's classes alone would have given
      it; unless the engine raised, and then the future says so. */
  method SharedRound(loaded: seq<string>, base: Engine, frames: seq<Frame>, closes: nat -> bool,
                     raises: EngineName -> bool, givesUp: nat -> bool)
    returns (futures: seq<InferenceFuture>, served: nat)
    requires frames != [] && Independent(base) && FiltersClasses(base)
    ensures |futures| == |frames| && 1 <= served <= |frames| && served <= MAX_BATCH
    ensures forall i :: served <= i < |frames| ==> futures[i].state == Pending
    ensures forall i :: 0 <= i < served && givesUp(i) ==> futures[i].state == Cancelled
    ensures forall i :: 0 <= i < served && !givesUp(i) && raises(base.name) ==> futures[i].state == Failed
    ensures forall i, plugin :: 0 <= i < served && !givesUp(i) && !raises(base.name)
                                && plugin in SHARED_PLUGINS && plugin in loaded ==>
              futures[i].state.Done?
              && FilterByClass(futures[i].state.result, PluginClasses(plugin))
                 == Predict(base, frames[i], Some(PluginClasses(plugin)))
  {
    var union := BuildUnion(loaded);
    var engine := base.(allClasses := Some(union));
    SameNetwork(base, engine);
    futures, served := ServeRound(engine, frames, closes, raises, givesUp);
    forall i, plugin | 0 <= i < served && !givesUp(i) && !raises(base.name)
                       && plugin in SHARED_PLUGINS && plugin in loaded
      ensures futures[i].state.Done?
           && FilterByClass(futures[i].state.result, PluginClasses(plugin))
              == Predict(base, frames[i], Some(PluginClasses(plugin)))
    {
      SharedPluginsSeeTheirOwn(engine, frames[i], union, plugin);
    }
  }

  lemma SameNetwork(base: Engine, engine: Engine)
    requires engine == base.(allClasses := engine.allClasses)
    ensures Independent(base) ==> Independent(engine)
    ensures FiltersClasses(base) ==> FiltersClasses(engine)
    ensures forall frame, classes :: Predict(engine, frame, classes) == Predict(base, frame, classes)
  {
    if Independent(base) {
      forall frames, classes ensures OnePerFrame(engine, frames, classes) {
        assert OnePerFrame(base, frames, classes);
        forall i | 0 <= i < |frames| ensures AsAlone(engine, frames[i], classes, engine.net(frames, classes)[i]) {
          assert AsAlone(base, frames[i], classes, base.net(frames, classes)[i]);
        }
      }
    }
    if FiltersClasses(base) {
      forall frame, classes | classes != {}
        ensures Found(engine, frame, Some(classes)) == FilterBoxes(Found(engine, frame, None), classes)
      {
        assert Found(base, frame, Some(classes)) == FilterBoxes(Found(base, frame, None), classes);
      }
    }
  }
}
