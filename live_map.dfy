/** LiveMap's own logic: the frame-throttling UpdateController, the one-time initialisation
    on the first animation tick, the double-click zoom guard and the choice of micro-task
    executor.  The entity/component systems, layers, camera entities and timers it wires
    together are not part of this model; what they do is recorded as logs of calls. */
module LiveMaps {
  import opened Wrappers
  import opened Numerics

  /** UpdateController: accumulates frame deltas and lets a frame through only once more than
      `skipTime` milliseconds have gone by. */
  class UpdateController {
    const timePredicate: int -> bool
    const skipTime: int
    const animationMultiplier: real
    /** Milliseconds accumulated since the last frame let through (a Long). */
    var currentTime: int
    /** The arguments timePredicate was called with, in order. */
    var predicateCalls: seq<int>

    constructor (timePredicate: int -> bool, skipTime: int, animationMultiplier: real)
      ensures this.timePredicate == timePredicate && this.skipTime == skipTime && this.animationMultiplier == animationMultiplier
      ensures currentTime == 0 && predicateCalls == []
    {
      this.timePredicate, this.skipTime, this.animationMultiplier := timePredicate, skipTime, animationMultiplier;
      currentTime, predicateCalls := 0, [];
    }

    /** onTime(millisTime), given DeltaTime's tick `dt`: one Tick of the accumulator; when it
        lets the frame through, the predicate decides, called with dt * multiplier truncated
        toward zero; otherwise the answer is false and the predicate is not called. */
    method OnTime(dt: int) returns (r: bool)
      requires IsLong(dt) && IsLong(currentTime)
      modifies this
      ensures currentTime == Tick(old(currentTime), skipTime, dt).0
      ensures Tick(old(currentTime), skipTime, dt).1 ==>
        && predicateCalls == old(predicateCalls) + [TruncateToInt(dt as real * animationMultiplier)]
        && r == timePredicate(TruncateToInt(dt as real * animationMultiplier))
      ensures !Tick(old(currentTime), skipTime, dt).1 ==> predicateCalls == old(predicateCalls) && !r
    {
      currentTime := WrapLong(currentTime + dt);
      if currentTime > skipTime {
        currentTime := 0;
        var arg := TruncateToInt(dt as real * animationMultiplier);
        predicateCalls := predicateCalls + [arg];
        return timePredicate(arg);
      }
      return false;
    }
  }

  /** One tick of the accumulator: the new accumulated time and whether the frame is let
      through.  The Long sum wraps around; a frame let through resets the accumulator. */
  function Tick(acc: int, skipTime: int, dt: int): (r: (int, bool))
    ensures IsLong(r.0)
    ensures r.1 <==> WrapLong(acc + dt) > skipTime
    ensures r.1 ==> r.0 == 0
    ensures !r.1 ==> r.0 == WrapLong(acc + dt) <= skipTime
  {
    var sum := WrapLong(acc + dt);
    if sum > skipTime then (0, true) else (sum, false)
  }

  /** Which of a run of ticks let their frame through, starting from accumulator `acc`. */
  function Throttle(acc: int, skipTime: int, dts: seq<int>): (r: seq<bool>)
    ensures |r| == |dts|
    decreases |dts|
  {
    if dts == [] then []
    else
      var t := Tick(acc, skipTime, dts[0]);
      [t.1] + Throttle(t.0, skipTime, dts[1..])
  }

  function Sum(s: seq<int>): int {
    if s == [] then 0 else s[0] + Sum(s[1..])
  }

  lemma {:induction false} SumNonNegative(s: seq<int>)
    requires forall k | 0 <= k < |s| :: s[k] >= 0
    ensures Sum(s) >= 0
  {
    if s != [] {
      SumNonNegative(s[1..]);
    }
  }

  /** A tick whose delta alone exceeds the skip time always lets its frame through, whatever
      was accumulated before, as long as no Long sum overflows. */
  lemma {:induction false} LongTickAlwaysPasses(acc: int, skipTime: int, dts: seq<int>, i: nat)
    requires 0 <= acc <= skipTime && i < |dts| && dts[i] > skipTime
    requires forall k | 0 <= k < |dts| :: 0 <= dts[k] && IsLong(skipTime + dts[k])
    ensures Throttle(acc, skipTime, dts)[i]
    decreases i
  {
    if i > 0 {
      var t := Tick(acc, skipTime, dts[0]);
      LongTickAlwaysPasses(t.0, skipTime, dts[1..], i - 1);
    }
  }

  /** While the deltas, added to what was accumulated, stay within the skip time, no frame is
      let through: the predicate runs at most once per skipTime milliseconds. */
  lemma {:induction false} QuietWithinSkipTime(acc: int, skipTime: int, dts: seq<int>)
    requires 0 <= acc && IsLong(skipTime) && acc + Sum(dts) <= skipTime
    requires forall k | 0 <= k < |dts| :: dts[k] >= 0
    ensures forall k | 0 <= k < |dts| :: !Throttle(acc, skipTime, dts)[k]
    decreases |dts|
  {
    if dts != [] {
      SumNonNegative(dts[1..]);
      assert IsLong(acc + dts[0]);
      var t := Tick(acc, skipTime, dts[0]);
      assert !t.1 && t.0 == acc + dts[0];
      QuietWithinSkipTime(t.0, skipTime, dts[1..]);
      var rest := Throttle(t.0, skipTime, dts[1..]);
      assert Throttle(acc, skipTime, dts) == [false] + rest;
    }
  }

  /** The part of LiveMap that runs on animation ticks. */
  class LiveMap {
    var initialized: bool
    /** How many times init(componentManager) has run. */
    var initRuns: nat
    /** The deltas handed to the ECS controller's update, in order. */
    var updates: seq<int>

    ghost predicate Valid()
      reads this
    {
      initRuns == (if initialized then 1 else 0)
    }

    constructor ()
      ensures !initialized && initRuns == 0 && updates == [] && Valid()
    {
      initialized, initRuns, updates := false, 0, [];
    }

    /** animationHandler(componentManager, dt): initialises on the first tick only, updates
        the systems, and always answers true. */
    method AnimationHandler(dt: int) returns (r: bool)
      requires Valid()
      modifies this
      ensures Valid() && initialized && initRuns == 1
      ensures updates == old(updates) + [dt]
      ensures r
    {
      if !initialized {
        initRuns := initRuns + 1;
        initialized := true;
      }
      updates := updates + [dt];
      return true;
    }
  }

  /** The camera state the double-click listener looks at, and the zoom animations it
      requests. */
  class Camera {
    var hasScaleEffect: bool
    var zoom: real
    /** CameraScale.setAnimation(camera, origin, target, 1.0) calls: (origin, target). */
    var scaleRequests: seq<(Vec, Vec)>

    constructor (hasScaleEffect: bool, zoom: real)
      ensures this.hasScaleEffect == hasScaleEffect && this.zoom == zoom && scaleRequests == []
    {
      this.hasScaleEffect, this.zoom := hasScaleEffect, zoom;
      scaleRequests := [];
    }
  }

  datatype Vec = Vec(x: real, y: real)

  /** Whether the double-click listener ignores a click. */
  predicate IgnoresDoubleClick(hasScaleEffect: bool, zoom: real, maxZoom: int) {
    hasScaleEffect || zoom == maxZoom as real
  }

  /** The double-click listener: ignored while a zoom animation runs or at MAX_ZOOM;
      otherwise it zooms towards the midpoint of the click and the viewport centre. */
  method OnDoubleClick(camera: Camera, maxZoom: int, location: Vec, center: Vec, mapCoord: Vec -> Vec)
    modifies camera`scaleRequests
    ensures IgnoresDoubleClick(camera.hasScaleEffect, camera.zoom, maxZoom) ==> camera.scaleRequests == old(camera.scaleRequests)
    ensures !IgnoresDoubleClick(camera.hasScaleEffect, camera.zoom, maxZoom) ==>
      camera.scaleRequests == old(camera.scaleRequests) + [(location, mapCoord(Vec((location.x + center.x) / 2.0, (location.y + center.y) / 2.0)))]
  {
    if camera.hasScaleEffect || camera.zoom == maxZoom as real {
      return;
    }
    var newViewportPosition := mapCoord(Vec((location.x + center.x) / 2.0, (location.y + center.y) / 2.0));
    camera.scaleRequests := camera.scaleRequests + [(location, newViewportPosition)];
  }

  datatype ExecutorMode = UiThread | Auto | Background

  datatype Executor = Cooperative(frameTime: int) | MultiThreaded(id: nat)

  /** initSystems' executor: cooperative on the UI thread; otherwise the multi-threaded
      factory's executor, falling back to cooperative when the factory has none. */
  function SelectExecutor(mode: ExecutorMode, factory: Option<Executor>, frameTime: int): (r: Executor)
    ensures mode == UiThread ==> r == Cooperative(frameTime)
    ensures mode != UiThread && factory.Some? ==> r == factory.value
    ensures mode != UiThread && factory.None? ==> r == Cooperative(frameTime)
  {
    var chosen := match mode
      case UiThread => Some(Cooperative(frameTime))
      case Auto => factory
      case Background => factory;
    chosen.GetOr(Cooperative(frameTime))
  }
}
