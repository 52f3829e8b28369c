/**
 * The viewer state shared by every GL viewer of one window (`GLState`): the
 * ordered list of loaded scenes, the cameras keyed by name, the time range,
 * the current time and frame, and the playback flag with its frame counter.
 *
 * Scenes and cameras are objects of `abcview.gl`, which is not part of this
 * model; here they are value records, identified by `id` and `name`.  Time is
 * an exact `real`, so `frame = time * fps` and `time = frame / fps` are exact.
 */
module ViewerState {
  import opened Wrappers

  /**
   * Drawing modes of `abcview.io.Mode`.  The first five are the keys of the
   * viewer's mode-to-GL map; `Unlisted` is any other value a caller may pass
   * (the object tree's "Clear" action sends -1).
   */
  datatype Mode = Off | Fill | Line | Point | Bounds | Unlisted(code: int)

  predicate IsDrawingMode(m: Mode) {
    !m.Unlisted?
  }

  /** A loaded scene: its identity, display flags, mode, the last time it was given, and its own time range. */
  datatype Scene = Scene(
    id: nat,
    visible: bool,
    selected: bool,
    mode: Mode,
    loaded: bool,
    time: real,
    minTime: real,
    maxTime: real)

  datatype Camera = Camera(name: string, mode: Mode)

  /** What `add_scene` may be handed: a scene, or an object of any other type, which it ignores. */
  datatype SceneArg = SceneObject(scene: Scene) | NotAScene

  /** `remove_camera` accepts a camera name or a camera object. */
  datatype CameraRef = ByName(name: string) | ByCamera(camera: Camera)

  /** Python 2 orders every number before every non-numeric object, such as a builtin function. */
  const NUMBERS_ORDER_FIRST: bool := true

  predicate DistinctIds(ss: seq<Scene>) {
    forall i, j :: 0 <= i < j < |ss| ==> ss[i].id != ss[j].id
  }

  /** Position of the scene with identity `id` (`list.index`), if it is in the list. */
  function IndexOf(ss: seq<Scene>, id: nat): (r: Option<nat>)
    ensures r.Some? ==> r.value < |ss| && ss[r.value].id == id
    ensures r.Some? ==> forall k :: 0 <= k < r.value ==> ss[k].id != id
    ensures r.None? <==> forall k :: 0 <= k < |ss| ==> ss[k].id != id
  {
    if |ss| == 0 then None
    else if ss[0].id == id then Some(0)
    else match IndexOf(ss[1..], id)
      case Some(k) => Some(k + 1)
      case None => None
  }

  predicate Contains(ss: seq<Scene>, id: nat) {
    IndexOf(ss, id).Some?
  }

  /**
   * The scene list after `add_scene`: a scene already in the list is made
   * visible again, a new one is appended; either way it is given time `t`.
   */
  function WithScene(ss: seq<Scene>, s: Scene, t: real): (r: seq<Scene>)
    ensures |r| == if Contains(ss, s.id) then |ss| else |ss| + 1
    ensures Contains(r, s.id)
    ensures forall k :: 0 <= k < |ss| && ss[k].id != s.id ==> r[k] == ss[k]
    ensures DistinctIds(ss) ==> DistinctIds(r)
    ensures DistinctIds(ss) ==> forall k :: 0 <= k < |r| && r[k].id == s.id ==> r[k].time == t
    ensures Contains(ss, s.id) ==>
      var i := IndexOf(ss, s.id).value;
      r[i] == ss[i].(visible := true, time := t)
    ensures !Contains(ss, s.id) ==> r == ss + [s.(time := t)]
  {
    match IndexOf(ss, s.id)
    case Some(i) =>
      var r := ss[i := ss[i].(visible := true, time := t)];
      assert r[i].id == s.id;
      r
    case None =>
      var r := ss + [s.(time := t)];
      assert r[|ss|].id == s.id;
      r
  }

  /** The scene list after `list.remove`: the first scene with identity `id` is dropped, if there is one. */
  function Without(ss: seq<Scene>, id: nat): (r: seq<Scene>)
    ensures |ss| - 1 <= |r| <= |ss|
  {
    if ss == [] then []
    else if ss[0].id == id then ss[1..] else [ss[0]] + Without(ss[1..], id)
  }

  /** Exactly one scene goes when the identity is in the list, none otherwise. */
  lemma {:induction false} WithoutLength(ss: seq<Scene>, id: nat)
    ensures |Without(ss, id)| == if Contains(ss, id) then |ss| - 1 else |ss|
  {
    if ss != [] && ss[0].id != id {
      WithoutLength(ss[1..], id);
    }
  }

  /** Removal only takes scenes away. */
  lemma {:induction false} WithoutShrinks(ss: seq<Scene>, id: nat)
    ensures multiset(Without(ss, id)) <= multiset(ss)
  {
    if ss != [] {
      assert ss == [ss[0]] + ss[1..];
      if ss[0].id != id {
        WithoutShrinks(ss[1..], id);
      }
    }
  }

  /** In a duplicate-free list, no scene with the identity is left. */
  lemma WithoutRemoves(ss: seq<Scene>, id: nat)
    requires DistinctIds(ss)
    ensures !Contains(Without(ss, id), id)
  {
    WithoutKeepsOthers(ss, id);
    OthersKeepsDistinct(ss, id);
  }

  /** Reference definition: the scenes whose identity is not `id`, in their order. */
  function Others(ss: seq<Scene>, id: nat): (r: seq<Scene>)
    ensures |r| <= |ss|
    ensures forall k :: 0 <= k < |r| ==> r[k].id != id
  {
    if ss == [] then []
    else (if ss[0].id == id then [] else [ss[0]]) + Others(ss[1..], id)
  }

  /** Removing a scene from a duplicate-free list keeps every other scene, in order. */
  lemma {:induction false} WithoutKeepsOthers(ss: seq<Scene>, id: nat)
    requires DistinctIds(ss)
    ensures Without(ss, id) == Others(ss, id)
  {
    if ss != [] {
      assert DistinctIds(ss[1..]);
      if ss[0].id == id {
        OthersOfAbsent(ss[1..], id);
      } else {
        WithoutKeepsOthers(ss[1..], id);
      }
    }
  }

  lemma {:induction false} OthersOfAbsent(ss: seq<Scene>, id: nat)
    requires forall k :: 0 <= k < |ss| ==> ss[k].id != id
    ensures Others(ss, id) == ss
  {
    if ss != [] {
      OthersOfAbsent(ss[1..], id);
    }
  }

  function Stamp(s: Scene, t: real): Scene {
    if s.visible then s.(time := t) else s
  }

  /** The scene list after `_set_time(t)`: every visible scene is given `t`, the others are untouched. */
  function StampVisible(ss: seq<Scene>, t: real): (r: seq<Scene>)
    ensures |r| == |ss|
    ensures forall k :: 0 <= k < |ss| && ss[k].visible ==> r[k] == ss[k].(time := t)
    ensures forall k :: 0 <= k < |ss| && !ss[k].visible ==> r[k] == ss[k]
    ensures forall k :: 0 <= k < |ss| ==> r[k] == Stamp(ss[k], t)
  {
    if ss == [] then [] else [Stamp(ss[0], t)] + StampVisible(ss[1..], t)
  }

  /** Setting the time twice leaves only the second time on the scenes. */
  lemma StampVisibleTwice(ss: seq<Scene>, a: real, b: real)
    ensures StampVisible(StampVisible(ss, a), b) == StampVisible(ss, b)
  {
    var x, y := StampVisible(StampVisible(ss, a), b), StampVisible(ss, b);
    assert |x| == |y|;
    forall k | 0 <= k < |x| ensures x[k] == y[k] {
    }
  }

  /** Setting the time changes no scene's identity or visibility, so the list stays duplicate-free. */
  lemma StampVisibleKeepsIds(ss: seq<Scene>, t: real)
    requires DistinctIds(ss)
    ensures DistinctIds(StampVisible(ss, t))
  {
    var r := StampVisible(ss, t);
    forall i, j | 0 <= i < j < |r| ensures r[i].id != r[j].id {
      assert r[i].id == ss[i].id && r[j].id == ss[j].id;
    }
  }

  /**
   * The range `time_range` returns and stores.  Bounds that are both set are
   * returned as they are; with no scenes the range is (0, 0).  Otherwise the
   * source scans the scenes comparing each bound with the builtin functions
   * `min` and `max`, which Python 2 orders after every number: the minimum
   * becomes the last scene's minimum, and an unset maximum the first scene's maximum.
   */
  function StoredRange(minT: Option<real>, maxT: Option<real>, ss: seq<Scene>): (r: (real, real))
  {
    if minT.Some? && maxT.Some? then (minT.value, maxT.value)
    else if ss == [] then (0.0, 0.0)
    else (ss[|ss| - 1].minTime, if maxT.Some? then maxT.value else ss[0].maxTime)
  }

  /**
   * The frame the current-frame setter stores: above the last frame it wraps
   * to the first, below the first it wraps to the last.
   */
  function WrapFrame(f: real, first: real, last: real): (r: real)
    ensures first <= last ==> first <= r <= last
    ensures first <= f <= last ==> r == f
    ensures r == f || r == first || r == last
  {
    if f > last then first else if f < first then last else f
  }

  /** Python's `range(a, b)`. */
  function PyRange(a: int, b: int): (r: seq<int>)
    ensures forall k :: 0 <= k < |r| ==> r[k] == a + k
    decreases b - a
  {
    if a < b then [a] + PyRange(a + 1, b) else []
  }

  lemma {:induction false} PyRangeLength(a: int, b: int)
    ensures |PyRange(a, b)| == if a < b then b - a else 0
    decreases b - a
  {
    if a < b {
      PyRangeLength(a + 1, b);
    }
  }

  /** `frame_count` over integer bounds: the number of frames from the first to the last, both included. */
  function FrameCount(first: int, last: int): (n: nat)
    ensures first <= last ==> n == last - first + 1
    ensures last <= first ==> n == 1
  {
    PyRangeLength(first, last);
    |PyRange(first, last)| + 1
  }

  /**
   * The state the current-frame setter leaves, from scenes `ss0` and bounds
   * `min0`/`max0` before the call to scenes `ss`, bounds, time `t` and frame `fr`
   * after it: the range is resolved and stored, the wrapped frame is stored,
   * and the visible scenes get its time.
   */
  ghost predicate FrameSetTo(
    f: real, fps: real,
    ss0: seq<Scene>, min0: Option<real>, max0: Option<real>,
    ss: seq<Scene>, minT: Option<real>, maxT: Option<real>, t: real, fr: real)
    requires fps > 0.0
  {
    var range := StoredRange(min0, max0, ss0);
    var g := WrapFrame(f, range.0 * fps, range.1 * fps);
    && minT == Some(range.0) && maxT == Some(range.1)
    && fr == g && t == g / fps
    && ss == StampVisible(ss0, t)
  }

  lemma FrameSetToIntro(
    f: real, fps: real, ss0: seq<Scene>, min0: Option<real>, max0: Option<real>,
    first: real, last: real, g: real,
    ss: seq<Scene>, minT: Option<real>, maxT: Option<real>, t: real, fr: real)
    requires fps > 0.0
    requires minT == Some(StoredRange(min0, max0, ss0).0) && maxT == Some(StoredRange(min0, max0, ss0).1)
    requires first == StoredRange(min0, max0, ss0).0 * fps && last == StoredRange(min0, max0, ss0).1 * fps
    requires g == WrapFrame(f, first, last) && t == g / fps && fr == g
    requires ss == StampVisible(ss0, t)
    ensures FrameSetTo(f, fps, ss0, min0, max0, ss, minT, maxT, t, fr)
  {
  }

  /** Setting the same frame a second time keeps the time, the frame and the range. */
  lemma FrameSetToTwiceTimes(
    f: real, fps: real, ss0: seq<Scene>, min0: Option<real>, max0: Option<real>,
    ss1: seq<Scene>, min1: Option<real>, max1: Option<real>, t1: real, fr1: real,
    ss2: seq<Scene>, min2: Option<real>, max2: Option<real>, t2: real, fr2: real)
    requires fps > 0.0
    requires FrameSetTo(f, fps, ss0, min0, max0, ss1, min1, max1, t1, fr1)
    requires FrameSetTo(f, fps, ss1, min1, max1, ss2, min2, max2, t2, fr2)
    ensures t2 == t1 && fr2 == fr1 && min2 == min1 && max2 == max1
  {
    StoredRangeOfStored(min1, max1, ss1);
  }

  /** Setting the same frame a second time changes nothing further. */
  lemma FrameSetToTwice(
    f: real, fps: real, ss0: seq<Scene>, min0: Option<real>, max0: Option<real>,
    ss1: seq<Scene>, min1: Option<real>, max1: Option<real>, t1: real, fr1: real,
    ss2: seq<Scene>, min2: Option<real>, max2: Option<real>, t2: real, fr2: real)
    requires fps > 0.0
    requires FrameSetTo(f, fps, ss0, min0, max0, ss1, min1, max1, t1, fr1)
    requires FrameSetTo(f, fps, ss1, min1, max1, ss2, min2, max2, t2, fr2)
    ensures ss2 == ss1 && t2 == t1 && fr2 == fr1 && min2 == min1 && max2 == max1
  {
    FrameSetToTwiceTimes(f, fps, ss0, min0, max0, ss1, min1, max1, t1, fr1, ss2, min2, max2, t2, fr2);
    StampVisibleTwice(ss0, t1, t2);
  }

  /** Once both bounds are stored they are the range. */
  lemma StoredRangeOfStored(minT: Option<real>, maxT: Option<real>, ss: seq<Scene>)
    requires minT.Some? && maxT.Some?
    ensures StoredRange(minT, maxT, ss) == (minT.value, maxT.value)
  {
  }

  /**
   * With a bound unset the range falls back on the scenes: the minimum of the
   * latest scene, and the stored maximum or else the first scene's; with no
   * scene at all it is 0..0.
   */
  lemma StoredRangeUnset(minT: Option<real>, maxT: Option<real>, ss: seq<Scene>)
    requires minT.None? || maxT.None?
    ensures ss == [] ==> StoredRange(minT, maxT, ss) == (0.0, 0.0)
    ensures ss != [] ==> StoredRange(minT, maxT, ss).0 == ss[|ss| - 1].minTime
    ensures ss != [] && maxT.Some? ==> StoredRange(minT, maxT, ss).1 == maxT.value
    ensures ss != [] && maxT.None? ==> StoredRange(minT, maxT, ss).1 == ss[0].maxTime
  {
  }

  /** The time after one playback tick: one frame on, or back to the minimum once past the maximum. */
  function NextTime(t: real, fps: real, lo: real, hi: real): (r: real)
    requires fps > 0.0
    ensures lo <= hi ==> r <= hi
    ensures r == t + 1.0 / fps || r == lo
  {
    var next := t + 1.0 / fps;
    if next > hi then lo else next
  }

  lemma DivMulCancel(x: real, fps: real)
    requires fps > 0.0
    ensures (x / fps) * fps == x
  {
  }

  class GLState {
    var scenes: seq<Scene>
    var cameras: map<string, Camera>
    var minTime: Option<real>
    var maxTime: Option<real>
    var time: real
    var frame: real
    var playing: bool
    var fpsCounter: nat
    /** Frames shown during the last second of playback (the attribute `fps`). */
    var measuredFps: real
    var framesPerSecond: real
    /** Whether the playback timers run. */
    var timerActive: bool

    ghost predicate Valid()
      reads this
    {
      && framesPerSecond > 0.0
      && DistinctIds(scenes)
      && (forall name :: name in cameras ==> cameras[name].name == name)
    }

    constructor (fps: real := 24.0)
      requires fps > 0.0
      ensures Valid() && framesPerSecond == fps
      ensures scenes == [] && cameras == map[] && minTime.None? && maxTime.None?
      ensures time == 0.0 && frame == 0.0 && !playing && fpsCounter == 0
      ensures measuredFps == 0.0 && !timerActive
    {
      framesPerSecond := fps;
      scenes, cameras := [], map[];
      minTime, maxTime := None, None;
      time, frame := 0.0, 0.0;
      playing, fpsCounter := false, 0;
      measuredFps := 0.0;
      timerActive := false;
    }

    /** `clear`: no scenes, no cameras, no bounds, time and frame 0, not playing. */
    method Clear()
      requires Valid()
      modifies this`scenes, this`cameras, this`minTime, this`maxTime, this`time, this`frame,
        this`playing, this`fpsCounter
      ensures Valid()
      ensures scenes == [] && cameras == map[] && minTime.None? && maxTime.None?
      ensures time == 0.0 && frame == 0.0 && !playing && fpsCounter == 0
    {
      scenes, cameras := [], map[];
      minTime, maxTime := None, None;
      time, frame := 0.0, 0.0;
      playing, fpsCounter := false, 0;
    }

    /**
     * `add_scene`: a scene is appended unless already present, in which case
     * it is made visible again; either way it is given the current time.
     * Anything that is not a scene is ignored.
     */
    method AddScene(arg: SceneArg)
      requires Valid()
      modifies this`scenes
      ensures Valid()
      ensures arg.NotAScene? ==> scenes == old(scenes)
      ensures arg.SceneObject? ==> scenes == WithScene(old(scenes), arg.scene, time)
    {
      if arg.SceneObject? {
        scenes := WithScene(scenes, arg.scene, time);
      }
    }

    /**
     * `remove_scene`: the scene handed in is marked invisible (returned as
     * `hidden`) and taken out of the list if it is there.
     */
    method RemoveScene(scene: Scene) returns (hidden: Scene)
      requires Valid()
      modifies this`scenes
      ensures Valid()
      ensures hidden == scene.(visible := false)
      ensures scenes == Without(old(scenes), scene.id)
    {
      hidden := scene.(visible := false);
      var r := Without(scenes, scene.id);
      WithoutKeepsOthers(scenes, scene.id);
      OthersKeepsDistinct(scenes, scene.id);
      scenes := r;
    }

    /** `add_camera`: registers a camera under its name unless that name is taken. */
    method AddCamera(camera: Option<Camera>) returns (added: bool)
      requires Valid()
      modifies this`cameras
      ensures Valid()
      ensures added <==> camera.Some? && camera.value.name !in old(cameras)
      ensures cameras == if added then old(cameras)[camera.value.name := camera.value] else old(cameras)
    {
      added := camera.Some? && camera.value.name !in cameras;
      if added {
        cameras := cameras[camera.value.name := camera.value];
      }
    }

    /** `remove_camera`: deletes the camera by name; an unknown name raises KeyError. */
    method RemoveCamera(ref: CameraRef) returns (r: Outcome)
      requires Valid()
      modifies this`cameras
      ensures Valid()
      ensures var key := if ref.ByName? then ref.name else ref.camera.name;
        && (r.Pass? <==> key in old(cameras))
        && (r.Pass? ==> cameras == old(cameras) - {key})
        && (r.Fail? ==> r.error == KeyError && cameras == old(cameras))
    {
      var key := if ref.ByName? then ref.name else ref.camera.name;
      if key in cameras {
        cameras := cameras - {key};
        r := Pass;
      } else {
        r := Fail(KeyError);
      }
    }

    /** `get_camera`: the camera registered under `name`, or None. */
    function GetCamera(name: string): (r: Option<Camera>)
      reads this
      ensures r.None? <==> name !in cameras
      ensures Valid() && r.Some? ==> r.value.name == name
    {
      if name in cameras then Some(cameras[name]) else None
    }

    /**
     * The `current_time` setter.  None changes nothing; otherwise the time is
     * stored, the frame becomes time * fps, and each visible scene gets the time.
     */
    method SetTime(t: Option<real>)
      requires Valid()
      modifies this`time, this`frame, this`scenes
      ensures Valid()
      ensures t.None? ==> time == old(time) && frame == old(frame) && scenes == old(scenes)
      ensures t.Some? ==> time == t.value && frame == t.value * framesPerSecond
      ensures t.Some? ==> scenes == StampVisible(old(scenes), t.value)
    {
      if t.None? {
        return;
      }
      var nt := t.value;
      time := nt;
      frame := nt * framesPerSecond;
      ghost var ss0 := scenes;
      var i := 0;
      while i < |scenes|
        invariant 0 <= i <= |scenes| == |ss0|
        invariant time == nt && frame == nt * framesPerSecond
        invariant forall j :: 0 <= j < i ==> scenes[j] == Stamp(ss0[j], nt)
        invariant forall j :: i <= j < |scenes| ==> scenes[j] == ss0[j]
      {
        if scenes[i].visible {
          scenes := scenes[i := scenes[i].(time := nt)];
        }
        i := i + 1;
      }
      StampVisibleKeepsIds(ss0, nt);
    }

    /** `time_range`: the stored bounds once both are set; see StoredRange for the unset cases. */
    method TimeRange() returns (lo: real, hi: real)
      requires Valid()
      modifies this`minTime, this`maxTime
      ensures Valid()
      ensures (lo, hi) == StoredRange(old(minTime), old(maxTime), scenes)
      ensures minTime == Some(lo) && maxTime == Some(hi)
    {
      if minTime.None? || maxTime.None? {
        if |scenes| > 0 {
          for i := 0 to |scenes|
            invariant i == 0 ==> minTime == old(minTime) && maxTime == old(maxTime)
            invariant i > 0 ==> minTime == Some(scenes[i - 1].minTime)
            invariant i > 0 ==> maxTime == Some(if old(maxTime).Some? then old(maxTime).value else scenes[0].maxTime)
          {
            // `scene.min_time() < min` and `scene.max_time() > max` compare with the builtins
            if minTime.None? || NUMBERS_ORDER_FIRST {
              minTime := Some(scenes[i].minTime);
            }
            if maxTime.None? || !NUMBERS_ORDER_FIRST {
              maxTime := Some(scenes[i].maxTime);
            }
          }
        } else {
          minTime, maxTime := Some(0.0), Some(0.0);
        }
      }
      lo, hi := minTime.value, maxTime.value;
    }

    /** `frame_range`: the time range scaled by the frame rate. */
    method FrameRange() returns (first: real, last: real)
      requires Valid()
      modifies this`minTime, this`maxTime
      ensures Valid()
      ensures minTime == Some(StoredRange(old(minTime), old(maxTime), scenes).0)
      ensures maxTime == Some(StoredRange(old(minTime), old(maxTime), scenes).1)
      ensures first == StoredRange(old(minTime), old(maxTime), scenes).0 * framesPerSecond
      ensures last == StoredRange(old(minTime), old(maxTime), scenes).1 * framesPerSecond
    {
      var lo, hi := TimeRange();
      first, last := lo * framesPerSecond, hi * framesPerSecond;
    }

    /**
     * The `current_frame` setter: a frame past the last wraps to the first,
     * one before the first wraps to the last, and the time becomes frame / fps.
     */
    method SetFrame(f: real)
      requires Valid()
      modifies this`time, this`frame, this`scenes, this`minTime, this`maxTime
      ensures Valid()
      ensures FrameSetTo(f, framesPerSecond, old(scenes), old(minTime), old(maxTime), scenes, minTime, maxTime, time, frame)
    {
      var first, last := FrameRange();
      var g := f;
      if g > last {
        g := first;
      } else if g < first {
        g := last;
      }
      SetFrameTime(g);
      FrameSetToIntro(f, framesPerSecond, old(scenes), old(minTime), old(maxTime), first, last, g,
        scenes, minTime, maxTime, time, frame);
    }

    /** The time of frame `g`: the frame is stored as given and the visible scenes get its time. */
    method SetFrameTime(g: real)
      requires Valid()
      modifies this`time, this`frame, this`scenes
      ensures Valid()
      ensures time == g / framesPerSecond && frame == g
      ensures scenes == StampVisible(old(scenes), time)
    {
      SetTime(Some(g / framesPerSecond));
      DivMulCancel(g, framesPerSecond);
    }

    /** The `min_time` setter. */
    method SetMinTime(v: Option<real>)
      modifies this`minTime
      ensures minTime == v
    {
      minTime := v;
    }

    /** The `max_time` setter. */
    method SetMaxTime(v: Option<real>)
      modifies this`maxTime
      ensures maxTime == v
    {
      maxTime := v;
    }

    /** The `min_frame` setter: the minimum time becomes frame / fps, or unset for None. */
    method SetMinFrame(v: Option<real>)
      requires Valid()
      modifies this`minTime
      ensures Valid()
      ensures minTime == if v.None? then None else Some(v.value / framesPerSecond)
    {
      if v.None? {
        minTime := None;
      } else if framesPerSecond > 0.0 {
        minTime := Some(v.value / framesPerSecond);
      }
    }

    /** The `max_frame` setter: the maximum time becomes frame / fps, or unset for None. */
    method SetMaxFrame(v: Option<real>)
      requires Valid()
      modifies this`maxTime
      ensures Valid()
      ensures maxTime == if v.None? then None else Some(v.value / framesPerSecond)
    {
      if v.None? {
        maxTime := None;
      } else if framesPerSecond > 0.0 {
        maxTime := Some(v.value / framesPerSecond);
      }
    }

    /** Assignment to the public `frames_per_second` attribute. */
    method SetFramesPerSecond(fps: real)
      requires Valid() && fps > 0.0
      modifies this`framesPerSecond
      ensures Valid() && framesPerSecond == fps
    {
      framesPerSecond := fps;
    }

    /** `is_playing`. */
    function IsPlaying(): (r: bool)
      reads this
      ensures r == playing
    {
      playing
    }

    /** `play` starts the playback timers; the playing flag is set by the first tick. */
    method Play()
      modifies this`timerActive
      ensures timerActive
    {
      timerActive := true;
    }

    /**
     * `_play_fwd_cb`, one playback tick: the time advances by one frame and
     * wraps to the minimum once it passes the maximum.
     */
    method PlayTick()
      requires Valid()
      modifies this`playing, this`fpsCounter, this`time, this`frame, this`scenes, this`minTime, this`maxTime
      ensures Valid()
      ensures playing && fpsCounter == old(fpsCounter) + 1
      ensures minTime == Some(StoredRange(old(minTime), old(maxTime), old(scenes)).0)
      ensures maxTime == Some(StoredRange(old(minTime), old(maxTime), old(scenes)).1)
      ensures time == NextTime(old(time), framesPerSecond, minTime.value, maxTime.value)
      ensures frame == time * framesPerSecond
      ensures scenes == StampVisible(old(scenes), time)
    {
      playing := true;
      var lo, hi := TimeRange();
      AdvanceTime(lo, hi);
      fpsCounter := fpsCounter + 1;
    }

    /** The time step of a playback tick: one frame on, and back to `lo` once past `hi`. */
    method AdvanceTime(lo: real, hi: real)
      requires Valid()
      modifies this`time, this`frame, this`scenes
      ensures Valid()
      ensures time == NextTime(old(time), framesPerSecond, lo, hi)
      ensures frame == time * framesPerSecond
      ensures scenes == StampVisible(old(scenes), time)
    {
      SetTime(Some(time + 1.0 / framesPerSecond));
      if time > hi {
        ghost var next := time;
        SetTime(Some(lo));
        StampVisibleTwice(old(scenes), next, lo);
      }
    }

    /** `stop`: playback stops and both counters are reset. */
    method Stop()
      modifies this`playing, this`fpsCounter, this`measuredFps, this`timerActive
      ensures !playing && fpsCounter == 0 && measuredFps == 0.0 && !timerActive
    {
      playing := false;
      timerActive := false;
      fpsCounter := 0;
      measuredFps := 0.0;
    }

    /** `_fps_timer_cb`, once a second: the frames counted become the measured rate. */
    method FpsTick()
      requires Valid()
      modifies this`measuredFps, this`fpsCounter
      ensures measuredFps == old(fpsCounter) as real && fpsCounter == 0
    {
      measuredFps := (fpsCounter as real / framesPerSecond) * framesPerSecond;
      DivMulCancel(fpsCounter as real, framesPerSecond);
      fpsCounter := 0;
    }
  }

  lemma {:induction false} OthersKeepsDistinct(ss: seq<Scene>, id: nat)
    requires DistinctIds(ss)
    ensures DistinctIds(Others(ss, id))
    ensures forall k :: 0 <= k < |Others(ss, id)| ==> Others(ss, id)[k].id != id
    ensures forall x :: x in Others(ss, id) ==> x in ss
  {
    if ss != [] {
      assert DistinctIds(ss[1..]);
      OthersKeepsDistinct(ss[1..], id);
      var rest := Others(ss[1..], id);
      forall x | x in rest ensures x.id != ss[0].id {
        var k :| 0 <= k < |ss[1..]| && ss[1..][k] == x;
        assert ss[k + 1] == x;
      }
    }
  }
}
