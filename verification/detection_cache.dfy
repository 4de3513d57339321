/** The detection cache of analytics/src/analytics/core/detection_cache.py.

    `should_process` decides from counters it keeps per camera and throws away after a long empty stretch. The theorem
    is that the decisions are those of a rule without any counters. */
module DetectionCaches {

  datatype CameraId = CameraId(text: string)

  datatype CameraState = CameraState(
    lastDetectionsCount: nat, lastProcessedAt: real, emptyFrameCount: nat, totalFramesSeen: nat,
    totalFramesProcessed: nat)

  const NEW_STATE := CameraState(0, 0.0, 0, 0, 0)

  type Cache = map<CameraId, CameraState>

  class DetectionCache {
    var cache: Cache
    const maxEmptyFrames: int

    constructor (maxEmptyFrames: int)
      ensures cache == map[] && this.maxEmptyFrames == maxEmptyFrames
    {
      cache := map[];
      this.maxEmptyFrames := maxEmptyFrames;
    }

    /** `found` is the number of detections on the frame. */
    method ShouldProcess(c: CameraId, found: nat, now: real) returns (process: bool)
      modifies this
      ensures process == Decides(old(cache), Frame(c, found))
      ensures cache == After(old(cache), Frame(c, found), maxEmptyFrames, now)
    {
      if c !in cache {
        cache := cache[c := NEW_STATE];
      }
      var state := cache[c];
      state := state.(totalFramesSeen := state.totalFramesSeen + 1);
      if found > 0 {
        state := state.(emptyFrameCount := 0, lastDetectionsCount := found, lastProcessedAt := now,
                        totalFramesProcessed := state.totalFramesProcessed + 1);
        cache := cache[c := state];
        return true;
      }
      if state.lastDetectionsCount > 0 {
        state := state.(emptyFrameCount := 1, lastDetectionsCount := 0, lastProcessedAt := now,
                        totalFramesProcessed := state.totalFramesProcessed + 1);
        cache := cache[c := state];
        return true;
      }
      state := state.(emptyFrameCount := state.emptyFrameCount + 1);
      cache := cache[c := state];
      if state.emptyFrameCount >= maxEmptyFrames {
        cache := cache - {c};
      }
      process := false;
    }
  }

  // ---------- One frame ----------

  datatype Frame = Frame(camera: CameraId, found: nat)

  /** The state the decision is made on: forgotten cameras start afresh. */
  function StateOf(cache: Cache, c: CameraId): CameraState {
    if c in cache then cache[c] else NEW_STATE
  }

  predicate Decides(cache: Cache, f: Frame) {
    f.found > 0 || StateOf(cache, f.camera).lastDetectionsCount > 0
  }

  function After(cache: Cache, f: Frame, maxEmptyFrames: int, now: real): Cache {
    var s := StateOf(cache, f.camera);
    var seen := s.(totalFramesSeen := s.totalFramesSeen + 1);
    if Decides(cache, f) then
      cache[f.camera := CameraState(f.found, now, if f.found > 0 then 0 else 1, seen.totalFramesSeen,
                                    s.totalFramesProcessed + 1)]
    else if s.emptyFrameCount + 1 >= maxEmptyFrames then cache - {f.camera}
    else cache[f.camera := seen.(emptyFrameCount := s.emptyFrameCount + 1)]
  }

  // ---------- Runs ----------

  /** The cache after the frames, the k-th of them at `clock(k)`. */
  function Run(frames: seq<Frame>, maxEmptyFrames: int, clock: nat -> real): Cache {
    if frames == [] then map[]
    else
      var n := |frames| - 1;
      After(Run(frames[..n], maxEmptyFrames, clock), frames[n], maxEmptyFrames, clock(n))
  }

  /** Whether the latest frame of a camera showed anything. */
  predicate LastHadDetections(frames: seq<Frame>, c: CameraId) {
    frames != [] &&
    var n := |frames| - 1;
    if frames[n].camera == c then frames[n].found > 0 else LastHadDetections(frames[..n], c)
  }

  lemma {:induction false} CacheRemembersLastFrame(
      frames: seq<Frame>, maxEmptyFrames: int, clock: nat -> real, c: CameraId)
    ensures StateOf(Run(frames, maxEmptyFrames, clock), c).lastDetectionsCount > 0 <==> LastHadDetections(frames, c)
  {
    if frames != [] {
      var n := |frames| - 1;
      CacheRemembersLastFrame(frames[..n], maxEmptyFrames, clock, c);
    }
  }

  /** The memoryless rule: for any interleaving of cameras and any `max_empty_frames`, a frame is processed exactly when
      it or the same camera's previous frame shows something. Forgetting a camera's state never changes a decision. */
  lemma ProcessedExactlyWhen(
      frames: seq<Frame>, maxEmptyFrames: int, clock: nat -> real, c: CameraId, found: nat)
    ensures Decides(Run(frames, maxEmptyFrames, clock), Frame(c, found)) <==> found > 0 || LastHadDetections(frames, c)
  {
    CacheRemembersLastFrame(frames, maxEmptyFrames, clock, c);
  }

  /** How many frames of a run are processed. */
  function Processed(frames: seq<Frame>, maxEmptyFrames: int, clock: nat -> real): nat {
    if frames == [] then 0
    else
      var n := |frames| - 1;
      Processed(frames[..n], maxEmptyFrames, clock)
      + if Decides(Run(frames[..n], maxEmptyFrames, clock), frames[n]) then 1 else 0
  }

  function NonEmpty(frames: seq<Frame>): nat {
    if frames == [] then 0
    else NonEmpty(frames[..|frames| - 1]) + if frames[|frames| - 1].found > 0 then 1 else 0
  }

  /** How often some camera goes from a frame that shows something to an empty one. */
  function Departures(frames: seq<Frame>): nat {
    if frames == [] then 0
    else
      var n := |frames| - 1;
      Departures(frames[..n])
      + if frames[n].found == 0 && LastHadDetections(frames[..n], frames[n].camera) then 1 else 0
  }

  /** The work done in a run is its non-empty frames plus its departures, whatever is forgotten in between. */
  lemma {:induction false} WorkDone(frames: seq<Frame>, maxEmptyFrames: int, clock: nat -> real)
    ensures Processed(frames, maxEmptyFrames, clock) == NonEmpty(frames) + Departures(frames)
  {
    if frames != [] {
      var n := |frames| - 1;
      WorkDone(frames[..n], maxEmptyFrames, clock);
      ProcessedExactlyWhen(frames[..n], maxEmptyFrames, clock, frames[n].camera, frames[n].found);
    }
  }

  function FramesOf(frames: seq<Frame>, c: CameraId): nat {
    if frames == [] then 0
    else FramesOf(frames[..|frames| - 1], c) + if frames[|frames| - 1].camera == c then 1 else 0
  }

  function ProcessedOf(frames: seq<Frame>, maxEmptyFrames: int, clock: nat -> real, c: CameraId): nat {
    if frames == [] then 0
    else
      var n := |frames| - 1;
      ProcessedOf(frames[..n], maxEmptyFrames, clock, c)
      + if frames[n].camera == c && Decides(Run(frames[..n], maxEmptyFrames, clock), frames[n]) then 1 else 0
  }

  /** The counters that `get_hit_rate` adds up never overstate: what a camera's state says was seen and processed is at
      most what was, and what it says was skipped too. */
  lemma {:induction false} StatisticsNeverOverstate(
      frames: seq<Frame>, maxEmptyFrames: int, clock: nat -> real, c: CameraId)
    ensures var s := StateOf(Run(frames, maxEmptyFrames, clock), c);
            && s.totalFramesProcessed <= ProcessedOf(frames, maxEmptyFrames, clock, c)
            && s.totalFramesProcessed <= s.totalFramesSeen
            && s.totalFramesSeen - s.totalFramesProcessed
               <= FramesOf(frames, c) - ProcessedOf(frames, maxEmptyFrames, clock, c)
  {
    if frames != [] {
      StatisticsNeverOverstate(frames[..|frames| - 1], maxEmptyFrames, clock, c);
    }
  }

  /** How many empty frames of the camera in a row are its latest. */
  function TrailingEmpty(frames: seq<Frame>, c: CameraId): nat {
    if frames == [] then 0
    else
      var f := frames[|frames| - 1];
      if f.camera != c then TrailingEmpty(frames[..|frames| - 1], c)
      else if f.found > 0 then 0
      else TrailingEmpty(frames[..|frames| - 1], c) + 1
  }

  /** The camera has been in the cache since its first frame. */
  predicate Remembered(frames: seq<Frame>, maxEmptyFrames: int, clock: nat -> real, c: CameraId) {
    frames == []
    || (Remembered(frames[..|frames| - 1], maxEmptyFrames, clock, c)
        && (FramesOf(frames, c) > 0 ==> c in Run(frames, maxEmptyFrames, clock)))
  }

  /** When the camera's latest processed frame was, and what its latest frame showed. */
  function LatestProcessing(frames: seq<Frame>, clock: nat -> real, c: CameraId): real {
    if frames == [] then 0.0
    else
      var n := |frames| - 1;
      if frames[n].camera == c && (frames[n].found > 0 || LastHadDetections(frames[..n], c)) then clock(n)
      else LatestProcessing(frames[..n], clock, c)
  }

  function LatestFound(frames: seq<Frame>, c: CameraId): nat {
    if frames == [] then 0
    else if frames[|frames| - 1].camera == c then frames[|frames| - 1].found
    else LatestFound(frames[..|frames| - 1], c)
  }

  /** While a camera is remembered its state is exact: frames seen, frames processed and when last, empty frames in a
      row, and what the latest one showed. */
  lemma {:induction false} CountersAreExact(frames: seq<Frame>, maxEmptyFrames: int, clock: nat -> real, c: CameraId)
    requires Remembered(frames, maxEmptyFrames, clock, c)
    ensures var s := StateOf(Run(frames, maxEmptyFrames, clock), c);
            && s.totalFramesSeen == FramesOf(frames, c)
            && s.totalFramesProcessed == ProcessedOf(frames, maxEmptyFrames, clock, c)
            && s.emptyFrameCount == TrailingEmpty(frames, c)
            && s.lastProcessedAt == LatestProcessing(frames, clock, c)
            && s.lastDetectionsCount == LatestFound(frames, c)
    ensures FramesOf(frames, c) == 0 ==> c !in Run(frames, maxEmptyFrames, clock)
  {
    if frames != [] {
      var n := |frames| - 1;
      CountersAreExact(frames[..n], maxEmptyFrames, clock, c);
      CacheRemembersLastFrame(frames[..n], maxEmptyFrames, clock, c);
      EmptyMeansNothingLast(frames[..n], c);
    }
  }

  lemma {:induction false} EmptyMeansNothingLast(frames: seq<Frame>, c: CameraId)
    ensures LastHadDetections(frames, c) ==> TrailingEmpty(frames, c) == 0
  {
    if frames != [] {
      EmptyMeansNothingLast(frames[..|frames| - 1], c);
    }
  }

  /** A remembered camera is forgotten by its next frame if and only if that is skipped and completes `max_empty_frames`
      empty ones in a row. */
  lemma ForgottenExactlyWhen(
      frames: seq<Frame>, maxEmptyFrames: int, clock: nat -> real, c: CameraId, found: nat, now: real)
    requires Remembered(frames, maxEmptyFrames, clock, c)
    ensures c !in After(Run(frames, maxEmptyFrames, clock), Frame(c, found), maxEmptyFrames, now)
       <==> found == 0 && !LastHadDetections(frames, c) && TrailingEmpty(frames, c) + 1 >= maxEmptyFrames
  {
    CountersAreExact(frames, maxEmptyFrames, clock, c);
    CacheRemembersLastFrame(frames, maxEmptyFrames, clock, c);
  }
}
