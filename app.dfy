/**
 * The decision logic of the main window (`AbcView`): the deferred frame and
 * mode overrides, loading the files of the command line into the session and
 * the viewer, the camera handlers, and the two session decorators.
 *
 * The session is `abcview.io.Session`, which is not part of this model: here it
 * is a value record of what the window reads and writes.  What the file system
 * and the session reader answer is handed in as a `Disk` value.
 */
module App {
  import opened Wrappers
  import opened FileKinds
  import opened ViewerState
  import opened TreeItems

  /** An item of the session: a record of the session file and the time range its archive covers. */
  datatype Member = Member(entry: Entry, minTime: real, maxTime: real)

  /** The session as far as the window uses it. */
  datatype Session = Session(
    items: seq<Member>,
    cameras: seq<string>,
    camera: Option<string>,
    fps: real,
    minTime: real,
    maxTime: real,
    currentTime: real,
    dirty: bool)

  /** The deferred overrides (`_overrides`); an absent key is None. */
  datatype Overrides = Overrides(
    mode: Option<Mode>,
    firstFrame: Option<real>,
    lastFrame: Option<real>,
    fps: Option<real>,
    currentFrame: Option<real>)

  /** The time slider's range and position, in frames. */
  datatype Slider = Slider(minimum: real, maximum: real, value: real)

  /**
   * What the outside world answers while loading: the paths that are regular
   * files (`os.path.isfile`), the item `add_file` appends for each path it can
   * read (any other path raises `AbcViewError`), and the sessions the session
   * reader opens.
   */
  datatype Disk = Disk(files: set<string>, readable: map<string, Member>, sessions: map<string, Session>)

  /** Every session the reader opens runs at a positive frame rate. */
  predicate ValidDisk(disk: Disk) {
    forall p :: p in disk.sessions ==> disk.sessions[p].fps > 0.0
  }

  /** Python truth of an override: present and non-zero. */
  predicate Truthy(v: Option<real>) {
    v.Some? && v.value != 0.0
  }

  /** Python's `int()` on a number: the integer part, rounding toward zero. */
  function Trunc(x: real): (r: int)
    ensures x >= 0.0 ==> 0 <= r && r as real <= x < r as real + 1.0
    ensures x < 0.0 ==> r <= 0 && r as real - 1.0 < x <= r as real
  {
    if x >= 0.0 then x.Floor else -((-x).Floor)
  }

  /** `int()` moves no number further from zero, and keeps whole numbers. */
  lemma TruncMagnitude(x: real)
    ensures -x <= Trunc(x) as real <= x || x <= Trunc(x) as real <= -x
    ensures x == (x.Floor as real) ==> Trunc(x) as real == x
  {
    if x < 0.0 && x == (x.Floor as real) {
      assert (-x).Floor == -x.Floor;
    }
  }

  // ---------------------------------------------------------------------------
  // The session decorators

  /**
   * `make_dirty(func)` (`dirty`) and `make_clean(func)` (not `dirty`): the
   * wrapper returns what `func` returns and leaves the session as `func` left
   * it, because the marking of the session comes after the `return`.
   */
  function Decorated<A(!new), R>(func: (Session, A) -> (Session, R), dirty: bool): (w: (Session, A) -> (Session, R))
    ensures forall s, a :: w(s, a) == func(s, a)
  {
    (s, a) => func(s, a)
  }

  /** A decorated handler changes the dirty flag exactly as the handler itself does, whichever the decorator. */
  lemma DecoratorsKeepDirtyFlag<A(!new), R>(func: (Session, A) -> (Session, R), s: Session, a: A)
    ensures Decorated(func, true)(s, a).0.dirty == func(s, a).0.dirty
    ensures Decorated(func, false)(s, a).0.dirty == func(s, a).0.dirty
    ensures Decorated(func, true)(s, a) == Decorated(func, false)(s, a)
  {
  }

  /** The name of the viewer's own camera, which is never stored in the session. */
  const INTERACTIVE: string := "interactive"

  /** The body of `handle_new_camera`: any camera but the interactive one is added to the session. */
  function NewCamera(s: Session, camera: Camera): (r: (Session, ()))
    ensures camera.name == INTERACTIVE ==> r.0 == s
    ensures camera.name != INTERACTIVE ==> r.0 == s.(cameras := s.cameras + [camera.name])
  {
    if camera.name != INTERACTIVE then (s.(cameras := s.cameras + [camera.name]), ()) else (s, ())
  }

  /** The body of `handle_set_camera`: any camera but the interactive one becomes the session's camera. */
  function SetCamera(s: Session, camera: Camera): (r: (Session, ()))
    ensures camera.name == INTERACTIVE ==> r.0 == s
    ensures camera.name != INTERACTIVE ==> r.0 == s.(camera := Some(camera.name))
  {
    if camera.name != INTERACTIVE then (s.(camera := Some(camera.name)), ()) else (s, ())
  }

  // ---------------------------------------------------------------------------
  // Adding files to the session

  /** A path is added when it is a regular file and the session can read it. */
  predicate Loadable(path: string, disk: Disk) {
    path in disk.files && path in disk.readable
  }

  /** The items the files add to the session, in file order. */
  function Accepted(paths: seq<string>, disk: Disk): (r: seq<Member>)
    ensures |r| <= |paths|
  {
    if paths == [] then []
    else
      var last := paths[|paths| - 1];
      Accepted(paths[..|paths| - 1], disk) + (if Loadable(last, disk) then [disk.readable[last]] else [])
  }

  /** The files that could not be loaded (`_bad_files`), in file order. */
  function Rejected(paths: seq<string>, disk: Disk): (r: seq<string>)
    ensures |r| <= |paths|
    ensures forall k :: 0 <= k < |r| ==> !Loadable(r[k], disk)
  {
    if paths == [] then []
    else
      var last := paths[|paths| - 1];
      Rejected(paths[..|paths| - 1], disk) + (if Loadable(last, disk) then [] else [last])
  }

  /** Each file is either added or reported, never both. */
  lemma {:induction false} AcceptedRejectedCount(paths: seq<string>, disk: Disk)
    ensures |Accepted(paths, disk)| + |Rejected(paths, disk)| == |paths|
  {
    if paths != [] {
      AcceptedRejectedCount(paths[..|paths| - 1], disk);
    }
  }

  /** A path is reported exactly when it is one of the files and cannot be loaded. */
  lemma {:induction false} RejectedMembers(paths: seq<string>, disk: Disk, p: string)
    ensures p in Rejected(paths, disk) <==> p in paths && !Loadable(p, disk)
  {
    if paths != [] {
      var n := |paths|;
      RejectedMembers(paths[..n - 1], disk, p);
      assert paths == paths[..n - 1] + [paths[n - 1]];
    }
  }

  /** Every file is reported exactly when none of them can be loaded. */
  lemma {:induction false} AllRejected(paths: seq<string>, disk: Disk)
    ensures |Rejected(paths, disk)| == |paths| <==> forall k :: 0 <= k < |paths| ==> !Loadable(paths[k], disk)
  {
    if paths != [] {
      var n := |paths|;
      AllRejected(paths[..n - 1], disk);
      var pre := paths[..n - 1];
      if forall k :: 0 <= k < n ==> !Loadable(paths[k], disk) {
        assert forall k :: 0 <= k < |pre| ==> !Loadable(pre[k], disk);
      }
      if |Rejected(paths, disk)| == n {
        assert |Rejected(pre, disk)| == n - 1 && !Loadable(paths[n - 1], disk);
        forall k | 0 <= k < n ensures !Loadable(paths[k], disk) {
          if k < n - 1 {
            assert pre[k] == paths[k];
          }
        }
      }
    }
  }

  /**
   * The loop of `_load` over several files: a path that is not a file is
   * reported; otherwise `add_file` appends its item, or raises and the path is reported.
   */
  method AddFiles(items: seq<Member>, paths: seq<string>, disk: Disk) returns (added: seq<Member>, bad: seq<string>)
    ensures added == items + Accepted(paths, disk)
    ensures bad == Rejected(paths, disk)
  {
    added, bad := items, [];
    var i := 0;
    while i < |paths|
      invariant 0 <= i <= |paths|
      invariant added == items + Accepted(paths[..i], disk)
      invariant bad == Rejected(paths[..i], disk)
    {
      var path := paths[i];
      assert paths[..i + 1][..i] == paths[..i];
      if path !in disk.files {
        bad := bad + [path];
      } else if path !in disk.readable {
        bad := bad + [path];
      } else {
        added := added + [disk.readable[path]];
      }
      i := i + 1;
    }
    assert paths[..i] == paths;
  }

  // ---------------------------------------------------------------------------
  // The frame range

  /**
   * The time range `_load` takes from the files before the overrides: a
   * single session file gives the session's range; a single scene file, unless
   * the mode override is Off, gives the range of the session's first item, which
   * must be a scene; otherwise frames 0 to 100 at the session's rate.
   */
  function FileRange(paths: seq<string>, mode: Option<Mode>, s: Session): (r: Result<(real, real)>)
    requires s.fps > 0.0
    ensures r.Err? ==> |paths| == 1 && !IsSessionFile(paths[0]) && IsSceneFile(paths[0])
    ensures |paths| != 1 ==> r == Ok((0.0, 100.0 / s.fps))
  {
    if |paths| == 1 && IsSessionFile(paths[0]) then Ok((s.minTime, s.maxTime))
    else if |paths| == 1 && IsSceneFile(paths[0]) && mode != Some(Off) then
      if |s.items| == 0 then Err(IndexError)
      else if !s.items[0].entry.SceneEntry? then Err(AssertionError)
      else Ok((s.items[0].minTime, s.items[0].maxTime))
    else Ok((0.0, 100.0 / s.fps))
  }

  /** The frame rate after the overrides: a truthy rate override replaces the rate, which stays positive. */
  function FpsAfter(o: Overrides, fps: real): (r: real)
    ensures r == fps || (o.fps.Some? && r == o.fps.value)
    ensures fps > 0.0 && (o.fps.Some? ==> o.fps.value > 0.0) ==> r > 0.0
  {
    if Truthy(o.fps) then o.fps.value else fps
  }

  /** A bound after its frame override: a truthy frame at the rate `fps`, or the bound as it was. */
  function BoundAfter(frame: Option<real>, fps: real, bound: real): (r: real)
    requires fps > 0.0
    ensures !Truthy(frame) ==> r == bound
    ensures Truthy(frame) ==> r * fps == frame.value
  {
    if Truthy(frame) then frame.value / fps else bound
  }

  /**
   * The slider once the frame range is taken from the files, before the
   * overrides: frames 0 to 100 first; then a single session gives its range
   * and current time in frames at its own rate, and a single scene its range
   * at the session's rate.  A scene that cannot be read leaves 0 to 100.
   */
  function RangeSlider(paths: seq<string>, mode: Option<Mode>, s: Session, sl: Slider): (r: Slider)
    requires s.fps > 0.0
    ensures FileRange(paths, mode, s).Ok? ==>
      && r.minimum == FileRange(paths, mode, s).value.0 * s.fps
      && r.maximum == FileRange(paths, mode, s).value.1 * s.fps
    ensures FileRange(paths, mode, s).Err? ==> r == sl.(minimum := 0.0, maximum := 100.0)
    ensures r.value == if SingleSession(paths) then s.currentTime * s.fps else sl.value
  {
    var base := sl.(minimum := 0.0, maximum := 100.0);
    if SingleSession(paths) then Slider(s.minTime * s.fps, s.maxTime * s.fps, s.currentTime * s.fps)
    else if |paths| == 1 && IsSceneFile(paths[0]) && mode != Some(Off) && |s.items| > 0 && s.items[0].entry.SceneEntry? then
      base.(minimum := s.items[0].minTime * s.fps, maximum := s.items[0].maxTime * s.fps)
    else
      DivMulCancel(100.0, s.fps);
      base
  }

  /** The slider after the frame overrides: each truthy one sets its part, the current frame truncated. */
  function OverriddenSlider(o: Overrides, sl: Slider): (r: Slider)
    ensures r.minimum == if Truthy(o.firstFrame) then o.firstFrame.value else sl.minimum
    ensures r.maximum == if Truthy(o.lastFrame) then o.lastFrame.value else sl.maximum
    ensures r.value == if Truthy(o.currentFrame) then Trunc(o.currentFrame.value) as real else sl.value
  {
    var sl1 := if Truthy(o.firstFrame) then sl.(minimum := o.firstFrame.value) else sl;
    var sl2 := if Truthy(o.lastFrame) then sl1.(maximum := o.lastFrame.value) else sl1;
    if Truthy(o.currentFrame) then sl2.(value := Trunc(o.currentFrame.value) as real) else sl2
  }

  /**
   * The frame-boundary adjustment: a time before the minimum becomes the
   * minimum, otherwise one after the maximum becomes the maximum.  An unset
   * bound leaves the time as it is, for two reasons: no number is below None
   * in Python 2, and every number is above it, but the `current_time` setter
   * ignores the None it is then given.
   */
  function Clamp(t: real, lo: Option<real>, hi: Option<real>): (r: real)
    ensures r == t || (lo.Some? && r == lo.value) || (hi.Some? && r == hi.value)
  {
    if lo.Some? && t < lo.value then lo.value
    else if hi.Some? && t > hi.value then hi.value
    else t
  }

  /** Within a proper range the adjusted time lies in it, and a time already in it is kept. */
  lemma ClampWithin(t: real, lo: real, hi: real)
    requires lo <= hi
    ensures lo <= Clamp(t, Some(lo), Some(hi)) <= hi
    ensures lo <= t <= hi ==> Clamp(t, Some(lo), Some(hi)) == t
  {
  }

  /** The tree item `_load` makes for a session item: loaded items are loaded in the tree too. */
  function Planted(m: Member): (item: Item)
    ensures item.parent.None? && item.children == [] && !item.seen && item.checked
    ensures item.kind.SessionItem? <==> m.entry.SessionEntry?
    ensures item.kind.SessionItem? || item.kind.SceneItem?
    ensures item.kind.entry.loaded == m.entry.loaded
  {
    var k := if m.entry.SessionEntry? then SessionItem(m.entry) else SceneItem(m.entry);
    var item := NewEntryItem(k, None);
    if m.entry.loaded then item.(kind := WithLoaded(k, true), checked := true) else item
  }

  /** The object tree after adding a top-level item for each of `ms`, numbered from `next`. */
  function PlantedAll(items: map<ItemId, Item>, next: ItemId, ms: seq<Member>): (r: map<ItemId, Item>)
    ensures items.Keys <= r.Keys
  {
    if ms == [] then items
    else PlantedAll(items, next, ms[..|ms| - 1])[next + |ms| - 1 := Planted(ms[|ms| - 1])]
  }

  /** The items planted are the new numbers, each holding its session item in order; nothing else changes. */
  lemma {:induction false} PlantedAllShape(items: map<ItemId, Item>, next: ItemId, ms: seq<Member>, id: ItemId)
    ensures id in PlantedAll(items, next, ms) <==> id in items || next <= id < next + |ms|
    ensures next <= id < next + |ms| ==> PlantedAll(items, next, ms)[id] == Planted(ms[id - next])
    ensures id in items && !(next <= id < next + |ms|) ==> PlantedAll(items, next, ms)[id] == items[id]
  {
    if ms != [] {
      PlantedAllShape(items, next, ms[..|ms| - 1], id);
    }
  }

  /** One file that ends with the session extension: `_load` then replaces the session instead of adding to it. */
  predicate SingleSession(paths: seq<string>) {
    |paths| == 1 && IsSessionFile(paths[0])
  }

  /** The session after the files are read, or None when the session reader fails. */
  function Opened(s: Session, paths: seq<string>, disk: Disk): (r: Option<Session>)
    ensures SingleSession(paths) ==> (r.Some? <==> paths[0] in disk.sessions)
    ensures SingleSession(paths) && r.Some? ==> r.value == disk.sessions[paths[0]]
    ensures !SingleSession(paths) ==> r == Some(s.(items := s.items + Accepted(paths, disk)))
  {
    if SingleSession(paths) then
      if paths[0] in disk.sessions then Some(disk.sessions[paths[0]]) else None
    else Some(s.(items := s.items + Accepted(paths, disk)))
  }

  /** `_load` gives up when there were files and every one of them was bad. */
  predicate BailsOut(paths: seq<string>, disk: Disk): (b: bool)
    ensures b <==> !SingleSession(paths) && 0 < |paths| && forall k :: 0 <= k < |paths| ==> !Loadable(paths[k], disk)
  {
    AllRejected(paths, disk);
    !SingleSession(paths) && 0 < |paths| && |Rejected(paths, disk)| == |paths|
  }

  /** The time after the current-frame override: the frame wrapped into the range `lo`..`hi`, or `t` when there is none. */
  function TimeAfterFrame(o: Overrides, t: real, lo: real, hi: real, fps: real): real
    requires fps > 0.0
  {
    if Truthy(o.currentFrame) then WrapFrame(Trunc(o.currentFrame.value) as real, lo * fps, hi * fps) / fps else t
  }

  /** The time `_load` clamps: the current-frame override, else a single session's own time, else the viewer's. */
  function TimeBeforeClamp(o: Overrides, paths: seq<string>, s: Session, t: real, lo: real, hi: real, fps: real): real
    requires fps > 0.0
  {
    TimeAfterFrame(o, if SingleSession(paths) then s.currentTime else t, lo, hi, fps)
  }

  /** After loading, the current time lies in the time range whenever that range is proper. */
  lemma LoadedTimeInRange(o: Overrides, paths: seq<string>, s: Session, t: real, lo: real, hi: real, fps: real)
    requires fps > 0.0 && lo <= hi
    ensures lo <= Clamp(TimeBeforeClamp(o, paths, s, t, lo, hi, fps), Some(lo), Some(hi)) <= hi
  {
    ClampWithin(TimeBeforeClamp(o, paths, s, t, lo, hi, fps), lo, hi);
  }

  /** The scenes either kept as they were or given time `t`. */
  ghost predicate StampedOrSame(ss0: seq<Scene>, ss: seq<Scene>, t: real) {
    ss == ss0 || ss == StampVisible(ss0, t)
  }

  /** The scenes `ss` and time `t` either left as `ss1` and `t1` or the scenes given time `t`. */
  ghost predicate StampedTo(ss1: seq<Scene>, t1: real, ss: seq<Scene>, t: real) {
    (ss == ss1 && t == t1) || ss == StampVisible(ss1, t)
  }

  /** Two such steps in a row are one. */
  lemma StampedToTwice(ss1: seq<Scene>, t1: real, ss2: seq<Scene>, t2: real, ss3: seq<Scene>, t3: real)
    requires StampedTo(ss1, t1, ss2, t2) && StampedTo(ss2, t2, ss3, t3)
    ensures StampedTo(ss1, t1, ss3, t3)
  {
    if ss2 == StampVisible(ss1, t2) && ss3 == StampVisible(ss2, t3) {
      StampVisibleTwice(ss1, t2, t3);
    }
  }

  /** A step after scenes that were kept or stamped leaves them kept or stamped. */
  lemma StampedAfter(ss0: seq<Scene>, ss1: seq<Scene>, t1: real, ss: seq<Scene>, t: real)
    requires StampedOrSame(ss0, ss1, t1) && StampedTo(ss1, t1, ss, t)
    ensures StampedOrSame(ss0, ss, t)
  {
    if ss1 != ss0 && ss == StampVisible(ss1, t) {
      StampVisibleTwice(ss0, t1, t);
    }
  }

  /** Setting a frame within stored bounds keeps the bounds. */
  lemma FrameSetKeepsRange(f: real, fps: real, lo: real, hi: real,
    ss1: seq<Scene>, ss: seq<Scene>, minT: Option<real>, maxT: Option<real>, t: real, fr: real)
    requires fps > 0.0
    requires FrameSetTo(f, fps, ss1, Some(lo), Some(hi), ss, minT, maxT, t, fr)
    ensures minT == Some(lo) && maxT == Some(hi)
  {
    assert StoredRange(Some(lo), Some(hi), ss1) == (lo, hi);
  }

  /** Setting a frame within stored bounds wraps it into the frames of those bounds. */
  lemma FrameSetTime(f: real, fps: real, lo: real, hi: real,
    ss1: seq<Scene>, ss: seq<Scene>, minT: Option<real>, maxT: Option<real>, t: real, fr: real)
    requires fps > 0.0
    requires FrameSetTo(f, fps, ss1, Some(lo), Some(hi), ss, minT, maxT, t, fr)
    ensures t == WrapFrame(f, lo * fps, hi * fps) / fps
  {
    var range := StoredRange(Some(lo), Some(hi), ss1);
    assert range == (lo, hi);
    var g := WrapFrame(f, range.0 * fps, range.1 * fps);
    assert t == g / fps;
  }

  /** Setting a frame gives its time to the visible scenes. */
  lemma FrameSetScenes(f: real, fps: real, lo: real, hi: real,
    ss1: seq<Scene>, ss: seq<Scene>, minT: Option<real>, maxT: Option<real>, t: real, fr: real)
    requires fps > 0.0
    requires FrameSetTo(f, fps, ss1, Some(lo), Some(hi), ss, minT, maxT, t, fr)
    ensures ss == StampVisible(ss1, t)
  {
  }

  /** The time and range the overrides leave, from the range `lo`..`hi` the frame overrides produce. */
  lemma TimeAfterOverrides(o: Overrides, lo: real, hi: real, fps: real,
    ss1: seq<Scene>, t1: real, ss: seq<Scene>, minT: Option<real>, maxT: Option<real>, t: real, fr: real)
    requires fps > 0.0
    requires Truthy(o.currentFrame) ==>
      FrameSetTo(Trunc(o.currentFrame.value) as real, fps, ss1, Some(lo), Some(hi), ss, minT, maxT, t, fr)
    requires !Truthy(o.currentFrame) ==> t == t1 && ss == ss1 && minT == Some(lo) && maxT == Some(hi)
    ensures minT == Some(lo) && maxT == Some(hi)
    ensures t == TimeAfterFrame(o, t1, lo, hi, fps)
    ensures StampedTo(ss1, t1, ss, t)
  {
    if Truthy(o.currentFrame) {
      var f := Trunc(o.currentFrame.value) as real;
      FrameSetKeepsRange(f, fps, lo, hi, ss1, ss, minT, maxT, t, fr);
      FrameSetTime(f, fps, lo, hi, ss1, ss, minT, maxT, t, fr);
      FrameSetScenes(f, fps, lo, hi, ss1, ss, minT, maxT, t, fr);
    }
  }

  /**
   * What the overrides and the clamp leave, from rate `fps0`, range `lo0`..`hi0`,
   * time `t1` and scenes `ss1`: the rate, range, time and scenes.
   */
  ghost predicate Adjusted(o: Overrides, fps0: real, lo0: real, hi0: real, t1: real, ss1: seq<Scene>,
    fps: real, minT: Option<real>, maxT: Option<real>, t: real, ss: seq<Scene>)
  {
    fps == FpsAfter(o, fps0) && fps > 0.0 &&
    var lo := BoundAfter(o.firstFrame, fps, lo0);
    var hi := BoundAfter(o.lastFrame, fps, hi0);
    && minT == Some(lo) && maxT == Some(hi)
    && t == Clamp(TimeAfterFrame(o, t1, lo, hi, fps), Some(lo), Some(hi))
    && StampedTo(ss1, t1, ss, t)
  }

  lemma AdjustedIntro(o: Overrides, fps0: real, lo0: real, hi0: real, t1: real, ss1: seq<Scene>,
    lo: real, hi: real, t2: real, ss2: seq<Scene>,
    fps: real, minT: Option<real>, maxT: Option<real>, t: real, ss: seq<Scene>)
    requires fps == FpsAfter(o, fps0) && fps > 0.0
    requires lo == BoundAfter(o.firstFrame, fps, lo0) && hi == BoundAfter(o.lastFrame, fps, hi0)
    requires minT == Some(lo) && maxT == Some(hi)
    requires t2 == TimeAfterFrame(o, t1, lo, hi, fps) && StampedTo(ss1, t1, ss2, t2)
    requires t == Clamp(t2, Some(lo), Some(hi)) && StampedTo(ss2, t2, ss, t)
    ensures Adjusted(o, fps0, lo0, hi0, t1, ss1, fps, minT, maxT, t, ss)
  {
    StampedToTwice(ss1, t1, ss2, t2, ss, t);
  }

  /**
   * The state the viewer part of `_load` leaves, from session `s1`, time `t0`,
   * scenes `ss0` and slider `sl0`: the outcome, the session, the viewer's rate,
   * range, time and scenes, and the slider.  When the single scene cannot be
   * read the exception leaves the session as read, the session's rate, frames
   * 0 to 100, the time and scenes as they were, and the slider at 0 to 100.
   */
  ghost predicate Populated(
    o: Overrides, paths: seq<string>, s1: Session, t0: real, ss0: seq<Scene>, sl0: Slider,
    r: Outcome, s: Session, fpsNow: real, minT: Option<real>, maxT: Option<real>, t: real, ss: seq<Scene>, sl: Slider)
  {
    s1.fps > 0.0 && (o.fps.Some? ==> o.fps.value > 0.0) &&
    var fps := FpsAfter(o, s1.fps);
    match FileRange(paths, o.mode, s1)
    case Err(e) =>
      && r == Fail(e)
      && s == s1 && fpsNow == s1.fps
      && minT == Some(0.0) && maxT == Some(100.0 / s1.fps)
      && t == t0 && ss == ss0
      && sl == RangeSlider(paths, o.mode, s1, sl0)
    case Ok(range) =>
      var lo := BoundAfter(o.firstFrame, fps, range.0);
      var hi := BoundAfter(o.lastFrame, fps, range.1);
      && r.Pass?
      && s == s1.(fps := fps) && fpsNow == fps
      && minT == Some(lo) && maxT == Some(hi)
      && t == Clamp(TimeBeforeClamp(o, paths, s1, t0, lo, hi, fps), Some(lo), Some(hi))
      && StampedOrSame(ss0, ss, t)
      && sl == OverriddenSlider(o, RangeSlider(paths, o.mode, s1, sl0))
  }

  /**
   * After `_load` the slider shows the viewer's range in frames, with one
   * exception: when the rate override changes the rate after the range was
   * taken from the files, a bound no frame override set keeps its frame at
   * the old rate.  A current-frame override is the slider's value, truncated.
   */
  lemma SliderShowsRange(o: Overrides, paths: seq<string>, s1: Session, sl0: Slider, range: (real, real))
    requires s1.fps > 0.0 && (o.fps.Some? ==> o.fps.value > 0.0)
    requires FileRange(paths, o.mode, s1) == Ok(range)
    ensures var fps := FpsAfter(o, s1.fps);
      var sl := OverriddenSlider(o, RangeSlider(paths, o.mode, s1, sl0));
      && (Truthy(o.firstFrame) || !Truthy(o.fps) ==> sl.minimum == BoundAfter(o.firstFrame, fps, range.0) * fps)
      && (Truthy(o.lastFrame) || !Truthy(o.fps) ==> sl.maximum == BoundAfter(o.lastFrame, fps, range.1) * fps)
      && (Truthy(o.currentFrame) ==> sl.value == Trunc(o.currentFrame.value) as real)
  {
    var fps := FpsAfter(o, s1.fps);
    var sl1 := RangeSlider(paths, o.mode, s1, sl0);
    var sl := OverriddenSlider(o, sl1);
    if !Truthy(o.fps) {
      assert fps == s1.fps;
      assert sl1.minimum == range.0 * fps && sl1.maximum == range.1 * fps;
    }
  }

  lemma PopulatedIntro(
    o: Overrides, paths: seq<string>, s1: Session, t0: real, ss0: seq<Scene>, sl0: Slider,
    range: (real, real), t1: real, ss1: seq<Scene>,
    r: Outcome, s: Session, fpsNow: real, minT: Option<real>, maxT: Option<real>, t: real, ss: seq<Scene>, sl: Slider)
    requires s1.fps > 0.0 && (o.fps.Some? ==> o.fps.value > 0.0)
    requires FileRange(paths, o.mode, s1) == Ok(range) && r.Pass?
    requires t1 == (if SingleSession(paths) then s1.currentTime else t0) && StampedOrSame(ss0, ss1, t1)
    requires Adjusted(o, s1.fps, range.0, range.1, t1, ss1, fpsNow, minT, maxT, t, ss)
    requires s == s1.(fps := fpsNow)
    requires sl == OverriddenSlider(o, RangeSlider(paths, o.mode, s1, sl0))
    ensures Populated(o, paths, s1, t0, ss0, sl0, r, s, fpsNow, minT, maxT, t, ss, sl)
  {
    StampedAfter(ss0, ss1, t1, ss, t);
  }

  lemma PlantStep(before: map<ItemId, Item>, id: ItemId, m: Member, added: map<ItemId, Item>, after: map<ItemId, Item>)
    requires added == before[id := NewEntryItem(if m.entry.SessionEntry? then SessionItem(m.entry) else SceneItem(m.entry), None)]
    requires m.entry.loaded ==> after == added[id := added[id].(kind := WithLoaded(added[id].kind, true), checked := true)]
    requires !m.entry.loaded ==> after == added
    ensures after == before[id := Planted(m)]
  {
  }

  lemma PlantedAllSnoc(items: map<ItemId, Item>, next: ItemId, ms: seq<Member>, i: nat)
    requires i < |ms|
    ensures PlantedAll(items, next, ms[..i + 1]) == PlantedAll(items, next, ms[..i])[next + i := Planted(ms[i])]
  {
    assert ms[..i + 1][..i] == ms[..i];
  }

  /** The main window. */
  class AbcView {
    /** The state of the viewer. */
    const state: GLState
    /** The object tree. */
    const objects: ObjectTree
    var session: Session
    var overrides: Overrides
    /** The deferred load list. */
    var loadFiles: seq<string>
    var viewerEnabled: bool
    var slider: Slider

    ghost predicate Valid()
      reads this, state, objects
    {
      && state.Valid() && objects.Valid()
      && session.fps > 0.0
      && (overrides.fps.Some? ==> overrides.fps.value > 0.0)
    }

    constructor (session: Session, state: GLState, objects: ObjectTree)
      requires session.fps > 0.0 && state.Valid() && objects.Valid()
      ensures Valid()
      ensures this.session == session && this.state == state && this.objects == objects
      ensures overrides == Overrides(None, None, None, None, None) && loadFiles == []
      ensures viewerEnabled && slider == Slider(0.0, 0.0, 0.0)
    {
      this.session := session;
      this.state := state;
      this.objects := objects;
      overrides := Overrides(None, None, None, None, None);
      loadFiles := [];
      viewerEnabled := true;
      slider := Slider(0.0, 0.0, 0.0);
    }

    /** `set_default_mode`: the mode every loaded item is drawn in, or None for no override. */
    method SetDefaultMode(mode: Option<Mode>)
      modifies this`overrides
      ensures overrides == old(overrides).(mode := mode)
    {
      overrides := overrides.(mode := mode);
    }

    /** `set_first_frame`: records the override and moves the minimum time and the slider now. */
    method SetFirstFrame(frame: real)
      requires Valid()
      modifies this`overrides, this`slider, state`minTime
      ensures Valid()
      ensures overrides == old(overrides).(firstFrame := Some(frame))
      ensures state.minTime == Some(frame / state.framesPerSecond)
      ensures slider == old(slider).(minimum := frame)
    {
      overrides := overrides.(firstFrame := Some(frame));
      state.SetMinTime(Some(frame / state.framesPerSecond));
      slider := slider.(minimum := frame);
      state.SetMinFrame(Some(frame));
    }

    /** `set_last_frame`: records the override and moves the maximum time and the slider now. */
    method SetLastFrame(frame: real)
      requires Valid()
      modifies this`overrides, this`slider, state`maxTime
      ensures Valid()
      ensures overrides == old(overrides).(lastFrame := Some(frame))
      ensures state.maxTime == Some(frame / state.framesPerSecond)
      ensures slider == old(slider).(maximum := frame)
    {
      overrides := overrides.(lastFrame := Some(frame));
      state.SetMaxTime(Some(frame / state.framesPerSecond));
      slider := slider.(maximum := frame);
      state.SetMaxFrame(Some(frame));
    }

    /** `set_frames_per_second`: the override, the session and the viewer all take the rate. */
    method SetFramesPerSecond(fps: real)
      requires Valid() && fps > 0.0
      modifies this`overrides, this`session, state`framesPerSecond
      ensures Valid()
      ensures overrides == old(overrides).(fps := Some(fps))
      ensures session == old(session).(fps := fps) && state.framesPerSecond == fps
    {
      overrides := overrides.(fps := Some(fps));
      session := session.(fps := fps);
      state.SetFramesPerSecond(fps);
    }

    /**
     * `set_current_frame`: records the override, moves the slider and sets
     * the viewer's frame, twice; the second setting changes nothing further.
     */
    method SetCurrentFrame(frame: real)
      requires Valid()
      modifies this`overrides, this`slider, state`time, state`frame, state`scenes, state`minTime, state`maxTime
      ensures Valid()
      ensures overrides == old(overrides).(currentFrame := Some(frame))
      ensures slider == old(slider).(value := frame)
      ensures FrameSetTo(frame, state.framesPerSecond, old(state.scenes), old(state.minTime), old(state.maxTime),
        state.scenes, state.minTime, state.maxTime, state.time, state.frame)
    {
      overrides := overrides.(currentFrame := Some(frame));
      state.SetFrame(frame);
      ghost var (ss1, min1, max1, t1, fr1) := (state.scenes, state.minTime, state.maxTime, state.time, state.frame);
      slider := slider.(value := frame);
      state.SetFrame(frame);
      FrameSetToTwice(frame, state.framesPerSecond, old(state.scenes), old(state.minTime), old(state.maxTime),
        ss1, min1, max1, t1, fr1, state.scenes, state.minTime, state.maxTime, state.time, state.frame);
    }

    /** `set_load_files`: the files to load once the window is up. */
    method SetLoadFiles(paths: seq<string>)
      modifies this`loadFiles
      ensures loadFiles == paths
    {
      loadFiles := paths;
    }

    /** `handle_new_camera`, wrapped by `make_dirty`. */
    method HandleNewCamera(camera: Camera)
      modifies this`session
      ensures session == NewCamera(old(session), camera).0
      ensures session.dirty == old(session).dirty
    {
      session := Decorated(NewCamera, true)(session, camera).0;
    }

    /** `handle_set_camera`, wrapped by `make_dirty`. */
    method HandleSetCamera(camera: Camera)
      modifies this`session
      ensures session == SetCamera(old(session), camera).0
      ensures session.dirty == old(session).dirty
    {
      session := Decorated(SetCamera, true)(session, camera).0;
    }

    /** `set_frames_from_session`: the viewer takes the session's range and current time. */
    method SetFramesFromSession()
      requires Valid()
      modifies state`minTime, state`maxTime, state`time, state`frame, state`scenes, this`slider
      ensures Valid()
      ensures state.minTime == Some(session.minTime) && state.maxTime == Some(session.maxTime)
      ensures state.time == session.currentTime && state.frame == session.currentTime * state.framesPerSecond
      ensures state.scenes == StampVisible(old(state.scenes), session.currentTime)
      ensures slider == Slider(session.minTime * session.fps, session.maxTime * session.fps, session.currentTime * session.fps)
    {
      state.SetMinTime(Some(session.minTime));
      state.SetMaxTime(Some(session.maxTime));
      state.SetTime(Some(session.currentTime));
      slider := Slider(session.minTime * session.fps, session.maxTime * session.fps, session.currentTime * session.fps);
    }

    /** `set_frames_from_scene`: the viewer takes the scene's range; anything but a scene fails the assertion. */
    method SetFramesFromScene(scene: Member) returns (r: Outcome)
      requires Valid()
      modifies state`minTime, state`maxTime, this`slider
      ensures Valid()
      ensures r.Pass? <==> scene.entry.SceneEntry?
      ensures r.Fail? ==> r.error == AssertionError && unchanged(state) && slider == old(slider)
      ensures r.Pass? ==> state.minTime == Some(scene.minTime) && state.maxTime == Some(scene.maxTime)
      ensures r.Pass? ==> slider == old(slider).(minimum := scene.minTime * session.fps, maximum := scene.maxTime * session.fps)
    {
      if !scene.entry.SceneEntry? {
        return Fail(AssertionError);
      }
      state.SetMinTime(Some(scene.minTime));
      state.SetMaxTime(Some(scene.maxTime));
      slider := slider.(minimum := scene.minTime * session.fps, maximum := scene.maxTime * session.fps);
      r := Pass;
    }

    /** The frame-range overrides of `_load`, each applied only when truthy. */
    method ApplyOverrides()
      requires Valid()
      modifies this`session, this`slider, state`framesPerSecond, state`minTime, state`maxTime,
        state`time, state`frame, state`scenes
      ensures Valid()
      ensures state.framesPerSecond == FpsAfter(overrides, old(state.framesPerSecond))
      ensures session == if Truthy(overrides.fps) then old(session).(fps := overrides.fps.value) else old(session)
      ensures slider == OverriddenSlider(overrides, old(slider))
      ensures var minMid := if Truthy(overrides.firstFrame) then Some(overrides.firstFrame.value / state.framesPerSecond) else old(state.minTime);
        var maxMid := if Truthy(overrides.lastFrame) then Some(overrides.lastFrame.value / state.framesPerSecond) else old(state.maxTime);
        && (Truthy(overrides.currentFrame) ==>
          FrameSetTo(Trunc(overrides.currentFrame.value) as real, state.framesPerSecond, old(state.scenes), minMid, maxMid,
            state.scenes, state.minTime, state.maxTime, state.time, state.frame))
        && (!Truthy(overrides.currentFrame) ==>
          && state.minTime == minMid && state.maxTime == maxMid
          && state.time == old(state.time) && state.frame == old(state.frame) && state.scenes == old(state.scenes))
    {
      var sl := slider;
      if Truthy(overrides.fps) {
        var fps := overrides.fps.value;
        state.SetFramesPerSecond(fps);
        session := session.(fps := fps);
      }
      if Truthy(overrides.firstFrame) {
        state.SetMinFrame(overrides.firstFrame);
        sl := sl.(minimum := overrides.firstFrame.value);
      }
      if Truthy(overrides.lastFrame) {
        state.SetMaxFrame(overrides.lastFrame);
        sl := sl.(maximum := overrides.lastFrame.value);
      }
      if Truthy(overrides.currentFrame) {
        var frame := Trunc(overrides.currentFrame.value) as real;
        state.SetFrame(frame);
        sl := sl.(value := frame);
      }
      slider := sl;
    }

    /** The frame-boundary adjustment at the end of `_load`. */
    method ClampTime()
      requires Valid()
      modifies state`time, state`frame, state`scenes
      ensures Valid()
      ensures state.time == Clamp(old(state.time), state.minTime, state.maxTime)
      ensures state.time == old(state.time) ==> state.frame == old(state.frame) && state.scenes == old(state.scenes)
      ensures state.time != old(state.time) ==>
        state.frame == state.time * state.framesPerSecond && state.scenes == StampVisible(old(state.scenes), state.time)
    {
      if state.minTime.Some? && state.time < state.minTime.value {
        state.SetTime(state.minTime);
      } else if state.maxTime.Some? && state.time > state.maxTime.value {
        state.SetTime(state.maxTime);
      }
    }

    /**
     * `_load`.  The viewer is disabled while loading.  A single session file
     * replaces the session; otherwise every file is added to it or reported
     * as bad.  When every file is bad the viewer is enabled again and nothing
     * else happens.  Otherwise the range becomes frames 0 to 100 at the
     * session's rate, or the range of the single file, the truthy overrides
     * are applied, the current time is moved into the range, every item of
     * the session gets a tree item, and the viewer is enabled.
     */
    method Load(disk: Disk) returns (bad: seq<string>, r: Outcome)
      requires Valid() && ValidDisk(disk)
      modifies this`session, this`slider, this`viewerEnabled, state`framesPerSecond, state`minTime, state`maxTime,
        state`time, state`frame, state`scenes, objects`items, objects`topLevel, objects`nextId
      ensures Valid()
      ensures bad == if SingleSession(loadFiles) then [] else Rejected(loadFiles, disk)
      ensures Opened(old(session), loadFiles, disk).None? ==>
        && r == Fail(ReaderError) && !viewerEnabled && session == old(session)
        && unchanged(state) && unchanged(objects) && slider == old(slider)
      ensures BailsOut(loadFiles, disk) ==>
        && r.Pass? && viewerEnabled && unchanged(state) && unchanged(objects) && slider == old(slider)
        && session == Opened(old(session), loadFiles, disk).value
      ensures Opened(old(session), loadFiles, disk).Some? && !BailsOut(loadFiles, disk) ==>
        && Populated(overrides, loadFiles, Opened(old(session), loadFiles, disk).value, old(state.time), old(state.scenes),
          old(slider), r, session, state.framesPerSecond, state.minTime, state.maxTime, state.time, state.scenes, slider)
        && (r.Fail? ==> !viewerEnabled && unchanged(objects))
        && (r.Pass? ==>
          && viewerEnabled
          && objects.nextId == old(objects.nextId) + |session.items|
          && objects.topLevel == old(objects.topLevel) + Ids(old(objects.nextId), |session.items|)
          && objects.items == PlantedAll(old(objects.items), old(objects.nextId), session.items))
    {
      viewerEnabled := false;
      bad, r := ReadFiles(disk);
      if r.Fail? {
        return;
      }
      if |bad| > 0 && |bad| == |loadFiles| {
        viewerEnabled := true;
        return;
      }
      AcceptedRejectedCount(loadFiles, disk);
      r := FillViewer();
    }

    /** The rest of `_load` once the files are read: the viewer's range and time, then the object tree. */
    method FillViewer() returns (r: Outcome)
      requires Valid() && !viewerEnabled
      requires |loadFiles| == 1 && !SingleSession(loadFiles) ==> |session.items| > 0
      modifies this`session, this`slider, this`viewerEnabled, state`framesPerSecond, state`minTime, state`maxTime,
        state`time, state`frame, state`scenes, objects`items, objects`topLevel, objects`nextId
      ensures Valid()
      ensures Populated(overrides, loadFiles, old(session), old(state.time), old(state.scenes),
          old(slider), r, session, state.framesPerSecond, state.minTime, state.maxTime, state.time, state.scenes, slider)
      ensures r.Fail? ==> !viewerEnabled && unchanged(objects)
      ensures r.Pass? ==>
        && viewerEnabled
        && objects.nextId == old(objects.nextId) + |session.items|
        && objects.topLevel == old(objects.topLevel) + Ids(old(objects.nextId), |session.items|)
        && objects.items == PlantedAll(old(objects.items), old(objects.nextId), session.items)
    {
      r := Populate();
      if r.Fail? {
        return;
      }
      BuildTrees();
      viewerEnabled := true;
    }

    /** The viewer part of `_load` once the files are read: the frame range, the overrides and the time. */
    method Populate() returns (r: Outcome)
      requires Valid()
      requires |loadFiles| == 1 && !SingleSession(loadFiles) ==> |session.items| > 0
      modifies this`session, this`slider, state`framesPerSecond, state`minTime, state`maxTime,
        state`time, state`frame, state`scenes
      ensures Valid()
      ensures Populated(overrides, loadFiles, old(session), old(state.time), old(state.scenes),
          old(slider), r, session, state.framesPerSecond, state.minTime, state.maxTime, state.time, state.scenes, slider)
    {
      r := SetRange();
      if r.Fail? {
        return;
      }
      ghost var range := FileRange(loadFiles, overrides.mode, session).value;
      ghost var (t1, ss1) := (state.time, state.scenes);
      AdjustTime();
      PopulatedIntro(overrides, loadFiles, old(session), old(state.time), old(state.scenes), old(slider), range, t1, ss1,
        r, session, state.framesPerSecond, state.minTime, state.maxTime, state.time, state.scenes, slider);
    }

    /** The overrides of `_load` and the adjustment of the time into the range that follows them. */
    method AdjustTime()
      requires Valid() && state.minTime.Some? && state.maxTime.Some? && state.framesPerSecond == session.fps
      modifies this`session, this`slider, state`framesPerSecond, state`minTime, state`maxTime,
        state`time, state`frame, state`scenes
      ensures Valid()
      ensures session == old(session).(fps := state.framesPerSecond)
      ensures slider == OverriddenSlider(overrides, old(slider))
      ensures Adjusted(overrides, old(state.framesPerSecond), old(state.minTime).value, old(state.maxTime).value,
        old(state.time), old(state.scenes), state.framesPerSecond, state.minTime, state.maxTime, state.time, state.scenes)
    {
      ApplyOverrides();
      ghost var fps := state.framesPerSecond;
      ghost var lo := BoundAfter(overrides.firstFrame, fps, old(state.minTime).value);
      ghost var hi := BoundAfter(overrides.lastFrame, fps, old(state.maxTime).value);
      TimeAfterOverrides(overrides, lo, hi, fps, old(state.scenes), old(state.time),
        state.scenes, state.minTime, state.maxTime, state.time, state.frame);
      ghost var (t2, ss2) := (state.time, state.scenes);
      ClampTime();
      AdjustedIntro(overrides, old(state.framesPerSecond), old(state.minTime).value, old(state.maxTime).value,
        old(state.time), old(state.scenes), lo, hi, t2, ss2,
        state.framesPerSecond, state.minTime, state.maxTime, state.time, state.scenes);
    }

    /** The first part of `_load`: a single session file is opened, any other files are added or reported. */
    method ReadFiles(disk: Disk) returns (bad: seq<string>, r: Outcome)
      requires Valid() && ValidDisk(disk)
      modifies this`session
      ensures Valid()
      ensures bad == if SingleSession(loadFiles) then [] else Rejected(loadFiles, disk)
      ensures r.Pass? <==> Opened(old(session), loadFiles, disk).Some?
      ensures r.Fail? ==> r.error == ReaderError && session == old(session)
      ensures r.Pass? ==> session == Opened(old(session), loadFiles, disk).value
    {
      bad := [];
      if |loadFiles| == 1 && EndsWith(loadFiles[0], SESSION_EXT) {
        if loadFiles[0] !in disk.sessions {
          return bad, Fail(ReaderError);
        }
        session := disk.sessions[loadFiles[0]];
      } else {
        var items;
        items, bad := AddFiles(session.items, loadFiles, disk);
        session := session.(items := items);
      }
      r := Pass;
    }

    /** The frame range of `_load`: frames 0 to 100 at the session's rate, then the range of a single file. */
    method SetRange() returns (r: Outcome)
      requires Valid()
      requires |loadFiles| == 1 && !SingleSession(loadFiles) ==> |session.items| > 0
      modifies this`slider, state`framesPerSecond, state`minTime, state`maxTime, state`time, state`frame, state`scenes
      ensures Valid()
      ensures state.framesPerSecond == session.fps
      ensures r.Pass? <==> FileRange(loadFiles, overrides.mode, session).Ok?
      ensures r.Fail? ==> r.error == FileRange(loadFiles, overrides.mode, session).error
      ensures r.Pass? ==>
        && state.minTime == Some(FileRange(loadFiles, overrides.mode, session).value.0)
        && state.maxTime == Some(FileRange(loadFiles, overrides.mode, session).value.1)
      ensures r.Pass? && SingleSession(loadFiles) ==>
        state.time == session.currentTime && state.scenes == StampVisible(old(state.scenes), state.time)
      ensures !SingleSession(loadFiles) ==> state.time == old(state.time) && state.scenes == old(state.scenes)
      ensures r.Fail? ==> state.minTime == Some(0.0) && state.maxTime == Some(100.0 / session.fps)
      ensures slider == RangeSlider(loadFiles, overrides.mode, session, old(slider))
    {
      state.SetFramesPerSecond(session.fps);
      state.SetMinFrame(Some(0.0));
      state.SetMaxFrame(Some(100.0));
      slider := slider.(minimum := 0.0, maximum := 100.0);
      r := Pass;
      if |loadFiles| == 1 {
        if EndsWith(loadFiles[0], SESSION_EXT) {
          SetFramesFromSession();
        } else if EndsWith(loadFiles[0], SCENE_EXT) && overrides.mode != Some(Off) {
          r := SetFramesFromScene(session.items[0]);
        }
      }
    }

    /** The last loop of `_load`: a tree item for every item of the session, loaded when the item is. */
    method BuildTrees()
      requires Valid()
      modifies objects`items, objects`topLevel, objects`nextId
      ensures Valid()
      ensures objects.nextId == old(objects.nextId) + |session.items|
      ensures objects.topLevel == old(objects.topLevel) + Ids(old(objects.nextId), |session.items|)
      ensures objects.items == PlantedAll(old(objects.items), old(objects.nextId), session.items)
    {
      var ms := session.items;
      var i := 0;
      while i < |ms|
        invariant 0 <= i <= |ms|
        invariant Valid()
        invariant objects.nextId == old(objects.nextId) + i
        invariant objects.topLevel == old(objects.topLevel) + Ids(old(objects.nextId), i)
        invariant objects.items == PlantedAll(old(objects.items), old(objects.nextId), ms[..i])
      {
        var m := ms[i];
        var k := if m.entry.SessionEntry? then SessionItem(m.entry) else SceneItem(m.entry);
        ghost var before := objects.items;
        var id := objects.AddTopLevelItem(k);
        ghost var added := objects.items;
        if m.entry.loaded {
          objects.Load(id);
        }
        PlantStep(before, id, m, added, objects.items);
        PlantedAllSnoc(old(objects.items), old(objects.nextId), ms, i);
        IdsSnoc(old(objects.nextId), i);
        i := i + 1;
      }
      assert ms[..i] == ms;
    }
  }
}
