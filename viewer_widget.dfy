/**
 * The key-driven part of the GL viewer widget (`GLWidget.keyPressEvent`):
 * the space bar toggles playback, the number keys 0-4 choose a drawing mode
 * for the selected scenes (or the camera when none is selected), and the
 * arrow keys step the current frame through the wrapping frame setter.
 */
module ViewerWidget {
  import opened Wrappers
  import opened ViewerState

  datatype Key = Space | Key0 | Key1 | Key2 | Key3 | Key4 | RightArrow | LeftArrow | OtherKey

  /** The drawing mode a number key selects. */
  function KeyMode(key: Key): (m: Option<Mode>)
    ensures m.Some? <==> key in {Key0, Key1, Key2, Key3, Key4}
    ensures m.Some? ==> IsDrawingMode(m.value)
  {
    match key
    case Key0 => Some(Off)
    case Key1 => Some(Fill)
    case Key2 => Some(Line)
    case Key3 => Some(Point)
    case Key4 => Some(Bounds)
    case _ => None
  }

  predicate AnySelected(ss: seq<Scene>) {
    exists k :: 0 <= k < |ss| && ss[k].selected
  }

  /** A selected scene takes mode `m` and, unless `m` is Off, is loaded. */
  function ApplyMode(s: Scene, m: Mode): (r: Scene)
    ensures r.(mode := s.mode, loaded := s.loaded) == s
    ensures s.selected ==> r.mode == m && (r.loaded <==> s.loaded || m != Off)
    ensures !s.selected ==> r == s
  {
    if s.selected then s.(mode := m, loaded := s.loaded || m != Off) else s
  }

  /** The scenes after the mode keys: only the selected ones change, and only in mode and loaded flag. */
  function ApplyToSelected(ss: seq<Scene>, m: Mode): (r: seq<Scene>)
    ensures |r| == |ss|
    ensures forall k :: 0 <= k < |ss| && ss[k].selected ==>
      r[k].mode == m && r[k] == ss[k].(mode := m, loaded := r[k].loaded)
    ensures forall k :: 0 <= k < |ss| && ss[k].selected ==> (r[k].loaded <==> ss[k].loaded || m != Off)
    ensures forall k :: 0 <= k < |ss| && !ss[k].selected ==> r[k] == ss[k]
    ensures forall k :: 0 <= k < |ss| ==> r[k] == ApplyMode(ss[k], m)
  {
    if ss == [] then [] else [ApplyMode(ss[0], m)] + ApplyToSelected(ss[1..], m)
  }

  /** With no scene selected the mode keys leave every scene as it was. */
  lemma ApplyToUnselected(ss: seq<Scene>, m: Mode)
    requires !AnySelected(ss)
    ensures ApplyToSelected(ss, m) == ss
  {
    var r := ApplyToSelected(ss, m);
    assert |r| == |ss|;
    forall k | 0 <= k < |ss| ensures r[k] == ss[k] {
      assert !ss[k].selected;
    }
  }

  /** Applying a mode changes no identity or visibility, so the scene list stays duplicate-free. */
  lemma ApplyToSelectedKeepsIds(ss: seq<Scene>, m: Mode)
    requires DistinctIds(ss)
    ensures DistinctIds(ApplyToSelected(ss, m))
  {
    var r := ApplyToSelected(ss, m);
    forall i, j | 0 <= i < j < |r| ensures r[i].id != r[j].id {
      assert r[i].id == ss[i].id && r[j].id == ss[j].id;
    }
  }

  /** The loop of `_set_selected_scene_mode` over the scenes: each selected one takes the mode. */
  method ModeLoop(ss0: seq<Scene>, m: Mode) returns (ss: seq<Scene>, found: bool)
    ensures found <==> AnySelected(ss0)
    ensures ss == ApplyToSelected(ss0, m)
  {
    ss := ss0;
    found := false;
    var i := 0;
    while i < |ss|
      invariant 0 <= i <= |ss| == |ss0|
      invariant forall j :: 0 <= j < i ==> ss[j] == ApplyMode(ss0[j], m)
      invariant forall j :: i <= j < |ss| ==> ss[j] == ss0[j]
      invariant found <==> exists j :: 0 <= j < i && ss0[j].selected
    {
      if ss[i].selected {
        found := true;
      }
      ss := ss[i := ApplyMode(ss[i], m)];
      i := i + 1;
    }
  }

  class GLWidget {
    /** The viewer state, shared with the other viewers of the window. */
    const state: GLState
    /** The active camera. */
    var camera: Camera

    ghost predicate Valid()
      reads this, state
    {
      state.Valid()
    }

    constructor (state: GLState, camera: Camera)
      requires state.Valid()
      ensures Valid() && this.state == state && this.camera == camera
    {
      this.state := state;
      this.camera := camera;
    }

    /** `handle_set_mode`: the camera takes a listed drawing mode; any other value raises. */
    method HandleSetMode(m: Mode) returns (r: Outcome)
      modifies this`camera
      ensures r.Pass? <==> IsDrawingMode(m)
      ensures r.Fail? ==> r.error == InvalidDrawingMode
      ensures camera == if r.Pass? then old(camera).(mode := m) else old(camera)
    {
      if !IsDrawingMode(m) {
        return Fail(InvalidDrawingMode);
      }
      camera := camera.(mode := m);
      r := Pass;
    }

    /** `_set_selected_scene_mode` before the frame is set again: reports whether any scene was selected. */
    method ApplyToSelectedScenes(m: Mode) returns (found: bool)
      requires Valid()
      modifies state`scenes
      ensures Valid()
      ensures found <==> AnySelected(old(state.scenes))
      ensures state.scenes == ApplyToSelected(old(state.scenes), m)
    {
      var ss;
      ss, found := ModeLoop(state.scenes, m);
      ApplyToSelectedKeepsIds(state.scenes, m);
      state.scenes := ss;
    }

    /**
     * `_set_selected_scene_mode`: the selected scenes take the mode; when none
     * is selected the camera takes it instead.  The current frame is then set
     * to itself, which wraps it into the frame range.
     */
    method SetSelectedSceneMode(m: Mode) returns (r: Outcome)
      requires Valid()
      modifies this`camera, state`scenes, state`time, state`frame, state`minTime, state`maxTime
      ensures Valid()
      ensures AnySelected(old(state.scenes)) ==> r.Pass? && camera == old(camera)
      ensures !AnySelected(old(state.scenes)) ==> (r.Pass? <==> IsDrawingMode(m))
      ensures !AnySelected(old(state.scenes)) && r.Pass? ==> camera == old(camera).(mode := m)
      ensures r.Fail? ==> camera == old(camera) && unchanged(state)
      ensures r.Pass? ==> FrameSetTo(old(state.frame), state.framesPerSecond,
        ApplyToSelected(old(state.scenes), m), old(state.minTime), old(state.maxTime),
        state.scenes, state.minTime, state.maxTime, state.time, state.frame)
    {
      var found := ApplyToSelectedScenes(m);
      if !found {
        r := HandleSetMode(m);
        if r.Fail? {
          ApplyToUnselected(old(state.scenes), m);
          return;
        }
      } else {
        r := Pass;
      }
      state.SetFrame(state.frame);
    }

    /** The space bar with scenes present: playback stops if it is on, and starts otherwise. */
    method TogglePlayback()
      modifies state`playing, state`fpsCounter, state`measuredFps, state`timerActive
      ensures old(state.playing) ==>
        !state.playing && state.fpsCounter == 0 && state.measuredFps == 0.0 && !state.timerActive
      ensures !old(state.playing) ==>
        && state.timerActive && !state.playing && state.fpsCounter == old(state.fpsCounter)
        && state.measuredFps == old(state.measuredFps)
    {
      if state.IsPlaying() {
        state.Stop();
      } else {
        state.Play();
      }
    }

    /**
     * `keyPressEvent`.  The space bar is ignored when there are no scenes (the
     * second test, `frame_count <= 1`, compares the bound method itself with a
     * number and is never true); otherwise it stops playback or starts it.
     */
    method KeyPress(key: Key) returns (r: Outcome)
      requires Valid()
      modifies this`camera, state`scenes, state`time, state`frame, state`minTime, state`maxTime,
        state`playing, state`fpsCounter, state`measuredFps, state`timerActive
      ensures Valid() && r.Pass?
      ensures key.Space? && |old(state.scenes)| == 0 ==> unchanged(state) && camera == old(camera)
      ensures key.Space? && |old(state.scenes)| > 0 && old(state.playing) ==>
        && !state.playing && state.fpsCounter == 0 && state.measuredFps == 0.0 && !state.timerActive
        && state.scenes == old(state.scenes) && state.time == old(state.time)
      ensures key.Space? && |old(state.scenes)| > 0 && !old(state.playing) ==>
        && state.timerActive && !state.playing && state.fpsCounter == old(state.fpsCounter)
        && state.scenes == old(state.scenes) && state.time == old(state.time)
      ensures key.Space? ==>
        && camera == old(camera) && state.frame == old(state.frame)
        && state.minTime == old(state.minTime) && state.maxTime == old(state.maxTime)
      ensures KeyMode(key).Some? ==>
        && (AnySelected(old(state.scenes)) ==> camera == old(camera))
        && (!AnySelected(old(state.scenes)) ==> camera == old(camera).(mode := KeyMode(key).value))
        && FrameSetTo(old(state.frame), state.framesPerSecond,
          ApplyToSelected(old(state.scenes), KeyMode(key).value), old(state.minTime), old(state.maxTime),
          state.scenes, state.minTime, state.maxTime, state.time, state.frame)
      ensures KeyMode(key).Some? ==>
        && state.playing == old(state.playing) && state.fpsCounter == old(state.fpsCounter)
        && state.measuredFps == old(state.measuredFps) && state.timerActive == old(state.timerActive)
      ensures key.RightArrow? || key.LeftArrow? ==>
        && state.fpsCounter == old(state.fpsCounter)
        && state.measuredFps == old(state.measuredFps) && state.timerActive == old(state.timerActive)
      ensures key.RightArrow? || key.LeftArrow? ==>
        && camera == old(camera) && state.playing == old(state.playing)
        && FrameSetTo(old(state.frame) + (if key.RightArrow? then 1.0 else -1.0), state.framesPerSecond,
          old(state.scenes), old(state.minTime), old(state.maxTime),
          state.scenes, state.minTime, state.maxTime, state.time, state.frame)
      ensures key.OtherKey? ==> unchanged(state) && camera == old(camera)
    {
      r := Pass;
      if key.Space? {
        if |state.scenes| > 0 && NUMBERS_ORDER_FIRST {
          TogglePlayback();
        }
      } else if KeyMode(key).Some? {
        r := SetSelectedSceneMode(KeyMode(key).value);
      } else if key.RightArrow? || key.LeftArrow? {
        state.SetFrame(state.frame + if key.RightArrow? then 1.0 else -1.0);
      }
    }
  }
}
