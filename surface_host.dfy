// SurfaceHost.java: the host that owns the boot-time surface.  run checks the
// render callback, hands the arguments after the first to onInit, sets up the
// surface, and runs the render thread beside the subclass's main loop.  Each
// render frame draws, reconciles the surface's visibility with the requested
// one, follows the display rotation and paces itself to about 60 frames a
// second.  The display manager, the clock and the main thread's show/hide
// calls are parameters: each frame is given the rotation it reads, the time it
// reads and the show flag it sees.

module SurfaceHost {
  import opened JavaText

  /** android.view.Surface.ROTATION_0 .. ROTATION_270. */
  const Rotation0 := 0
  const Rotation90 := 1
  const Rotation180 := 2
  const Rotation270 := 3

  /** android.graphics.PixelFormat constants. */
  const Rgba8888 := 1
  const Rgb888 := 3
  const Rgb565 := 4

  /** The frame period of the limiter, in milliseconds. */
  const FramePeriod := 17

  /** SurfaceHost.reservedArgs: the APK path in front of the subclass's arguments. */
  const ReservedArgs := 1

  /** A rotation of the neutral class {0, 180}; every other value is rotated. */
  predicate Neutral(rotation: int)
  {
    rotation == Rotation0 || rotation == Rotation180
  }

  /** What the render thread tracks of the display: the surface size, the last
      rotation seen, whether the surface is shown, and the time of the last frame. */
  datatype Screen = Screen(width: int, height: int, lastRotation: int, isVisible: bool, lastFrame: int)

  /** The size of the panel in ROTATION_0 terms. */
  function NaturalSize(s: Screen): (int, int)
  {
    if Neutral(s.lastRotation) then (s.width, s.height) else (s.height, s.width)
  }

  datatype Rotated = Rotated(screen: Screen, changed: bool)

  /** checkRotation.  None stands for every way the display manager can fail to
      give a rotation: no manager yet, no displays, or an exception. */
  function Rotate(s: Screen, rotation: Option<int>): (r: Rotated)
    ensures r.screen.isVisible == s.isVisible && r.screen.lastFrame == s.lastFrame
    ensures r.changed <==> rotation.Some? && Neutral(rotation.value) != Neutral(s.lastRotation)
    ensures r.screen.lastRotation == if rotation.Some? then rotation.value else s.lastRotation
    ensures r.changed ==> r.screen.width == s.height && r.screen.height == s.width
    ensures !r.changed ==> r.screen.width == s.width && r.screen.height == s.height
  {
    if rotation.None? || rotation.value == s.lastRotation then Rotated(s, false)
    else if Neutral(rotation.value) != Neutral(s.lastRotation) then
      Rotated(s.(width := s.height, height := s.width, lastRotation := rotation.value), true)
    else Rotated(s.(lastRotation := rotation.value), false)
  }

  /** Following the rotation never changes the panel's own size. */
  lemma RotateKeepsNaturalSize(s: Screen, rotation: Option<int>)
    ensures NaturalSize(Rotate(s, rotation).screen) == NaturalSize(s)
  {
  }

  /** Turning to a rotation and back restores the screen exactly. */
  lemma RotateBack(s: Screen, rotation: int)
    ensures Rotate(Rotate(s, Some(rotation)).screen, Some(s.lastRotation)).screen == s
  {
  }

  datatype Shown = Shown(screen: Screen, transaction: bool)

  /** updateSurfaceVisibility: a show or hide transaction only when the requested
      state differs from the current one; afterwards the surface counts as in the
      requested state even when the transaction threw. */
  function Reconcile(s: Screen, show: bool): (r: Shown)
    ensures r.screen == s.(isVisible := show)
    ensures r.transaction <==> show != s.isVisible
  {
    if show != s.isVisible then Shown(s.(isVisible := show), true) else Shown(s, false)
  }

  /** A second reconciliation with the same request does nothing. */
  lemma ReconcileIdempotent(s: Screen, show: bool)
    ensures !Reconcile(Reconcile(s, show).screen, show).transaction
    ensures Reconcile(Reconcile(s, show).screen, show).screen == Reconcile(s, show).screen
  {
  }

  datatype Paced = Paced(screen: Screen, sleep: int)

  /** veryBadFPSLimiter: sleep for what is left of the 17 ms period (0 is no
      sleep), then remember the time read before sleeping. */
  function Limit(s: Screen, now: int): (r: Paced)
    ensures r.screen == s.(lastFrame := now)
    ensures now - s.lastFrame < FramePeriod ==> r.sleep > 0 && now + r.sleep == s.lastFrame + FramePeriod
    ensures now - s.lastFrame >= FramePeriod ==> r.sleep == 0
  {
    var diff := now - s.lastFrame;
    Paced(s.(lastFrame := now), if diff < FramePeriod then FramePeriod - diff else 0)
  }

  /** What the host does, in the order it does it; hooks are the subclass's
      members, the rest are the host's own effects. */
  datatype Event =
    | OnInit(args: seq<string>) | OnMainLoop | OnDone
    | OnSize(width: int, height: int) | OnInitRender | RenderFrame | OnResize(width: int, height: int)
    | OnDoneRender | SetVisible(visible: bool) | Sleep(millis: int)

  /** What one frame reads: the rotation, the requested visibility and the clock. */
  datatype Frame = Frame(rotation: Option<int>, show: bool, now: int)

  datatype Trace = Trace(screen: Screen, events: seq<Event>)

  /** What a frame does besides drawing: the show or hide transaction, onResize
      when the rotation changed class, and the limiter's sleep. */
  function Effects(v: Shown, r: Rotated, p: Paced, show: bool): (e: seq<Event>)
    ensures forall k :: 0 <= k < |e| ==> e[k] != RenderFrame
  {
    (if v.transaction then [SetVisible(show)] else [])
    + (if r.changed then [OnResize(r.screen.width, r.screen.height)] else [])
    + (if p.sleep > 0 then [Sleep(p.sleep)] else [])
  }

  /** One pass of the render loop: the frame is drawn, the visibility reconciled,
      onResize called when the rotation changed class, and the limiter run. */
  function FrameStep(s: Screen, f: Frame): (t: Trace)
    ensures t.screen.isVisible == f.show && t.screen.lastFrame == f.now
    ensures NaturalSize(t.screen) == NaturalSize(s)
  {
    var v := Reconcile(s, f.show);
    var r := Rotate(v.screen, f.rotation);
    RotateKeepsNaturalSize(v.screen, f.rotation);
    var p := Limit(r.screen, f.now);
    Trace(p.screen, [RenderFrame] + Effects(v, r, p, f.show))
  }

  /** The frames of the render loop, in order. */
  function Frames(s: Screen, frames: seq<Frame>): Trace
  {
    if frames == [] then Trace(s, [])
    else
      var t := Frames(s, frames[..|frames| - 1]);
      var u := FrameStep(t.screen, frames[|frames| - 1]);
      Trace(u.screen, t.events + u.events)
  }

  /** Over any number of frames the panel keeps its size, and the screen ends in
      the state the last frame asked for. */
  lemma {:induction false} FramesKeepNaturalSize(s: Screen, frames: seq<Frame>)
    ensures NaturalSize(Frames(s, frames).screen) == NaturalSize(s)
    ensures frames != [] ==> Frames(s, frames).screen.isVisible == frames[|frames| - 1].show
                             && Frames(s, frames).screen.lastFrame == frames[|frames| - 1].now
    decreases |frames|
  {
    if frames != [] {
      FramesKeepNaturalSize(s, frames[..|frames| - 1]);
    }
  }

  /** Every frame draws: the events start with a draw, and hold as many draws as
      frames. */
  function Draws(events: seq<Event>): nat
  {
    if events == [] then 0 else Draws(events[..|events| - 1]) + (if events[|events| - 1] == RenderFrame then 1 else 0)
  }

  lemma {:induction false} DrawsAppend(a: seq<Event>, b: seq<Event>)
    ensures Draws(a + b) == Draws(a) + Draws(b)
    decreases |b|
  {
    if b == [] {
      assert a + b == a;
    } else {
      assert (a + b)[..|a + b| - 1] == a + b[..|b| - 1];
      DrawsAppend(a, b[..|b| - 1]);
    }
  }

  lemma {:induction false} NoDraws(e: seq<Event>)
    requires forall k :: 0 <= k < |e| ==> e[k] != RenderFrame
    ensures Draws(e) == 0
    decreases |e|
  {
    if e != [] {
      NoDraws(e[..|e| - 1]);
    }
  }

  lemma FrameStepDrawsOnce(s: Screen, f: Frame)
    ensures Draws(FrameStep(s, f).events) == 1
  {
    var v := Reconcile(s, f.show);
    var r := Rotate(v.screen, f.rotation);
    var p := Limit(r.screen, f.now);
    var e := Effects(v, r, p, f.show);
    NoDraws(e);
    DrawsAppend([RenderFrame], e);
    assert [RenderFrame][..0] == [];
  }

  lemma {:induction false} FramesDrawEach(s: Screen, frames: seq<Frame>)
    ensures Draws(Frames(s, frames).events) == |frames|
    decreases |frames|
  {
    if frames != [] {
      var t := Frames(s, frames[..|frames| - 1]);
      FramesDrawEach(s, frames[..|frames| - 1]);
      FrameStepDrawsOnce(t.screen, frames[|frames| - 1]);
      DrawsAppend(t.events, FrameStep(t.screen, frames[|frames| - 1]).events);
    }
  }

  /** The render callback interfaces a SurfaceHost subclass implements. */
  datatype Callbacks = Callbacks(gl: bool, canvas: bool, hardwareCanvas: bool, surface: bool)

  /** run's guard: it throws unless the subclass renders with OpenGL and with
      nothing else. */
  predicate Accepted(cb: Callbacks)
  {
    cb.gl && !cb.canvas && !cb.hardwareCanvas && !cb.surface
  }

  datatype RenderThread = GLThread | SurfaceThread

  /** The render thread run creates. */
  function ThreadFor(cb: Callbacks): RenderThread
  {
    if cb.gl then GLThread else SurfaceThread
  }

  /** Past the guard the OpenGL thread is the only one ever started: the
      Canvas and Surface frame branches cannot run. */
  lemma AcceptedRunsGL(cb: Callbacks)
    requires Accepted(cb)
    ensures ThreadFor(cb) == GLThread
  {
  }

  /** getPixelFormat. */
  function PixelFormat(sdk: int, previewSdk: int): (f: int)
  {
    if sdk >= 29 || (sdk == 28 && previewSdk != 0) then Rgba8888
    else if sdk >= 24 then Rgb888
    else Rgb565
  }

  function BytesPerPixel(format: int): nat
  {
    if format == Rgba8888 then 4 else if format == Rgb888 then 3 else 2
  }

  /** Only Android 10, or a preview of Android 9, gets a format with alpha; a newer
      SDK never gets a shallower format. */
  lemma PixelFormatTable(sdk: int, newer: int, previewSdk: int)
    requires sdk <= newer
    ensures PixelFormat(sdk, previewSdk) == Rgba8888 <==> sdk >= 29 || (sdk == 28 && previewSdk != 0)
    ensures PixelFormat(sdk, previewSdk) == Rgb565 <==> sdk < 24
    ensures BytesPerPixel(PixelFormat(sdk, previewSdk)) <= BytesPerPixel(PixelFormat(newer, previewSdk))
  {
  }

  /** A display configuration's size. */
  datatype Size = Size(width: int, height: int)

  /** How run ends: the guard threw out of run, run returned for want of
      arguments, an exception was caught (and the process exits), or every hook
      ran (and the process exits). */
  datatype Outcome = Refused | NoArgs | Failed | Finished

  class Host {
    var show: bool
    var isVisible: bool
    var width: int
    var height: int
    var lastFrame: int
    var lastRotation: int
    var apk: Option<string>
    /** The hooks the main thread calls, in order. */
    var mainLog: seq<Event>
    /** The hooks the render thread calls and the effects it has, in order. */
    var renderLog: seq<Event>

    /** The render thread's view of the fields. */
    function Current(): Screen
      reads this
    {
      Screen(width, height, lastRotation, isVisible, lastFrame)
    }

    constructor ()
      ensures show && !isVisible && width == 0 && height == 0 && lastFrame == 0
      ensures lastRotation == Rotation0 && apk == None && mainLog == [] && renderLog == []
    {
      show, isVisible, width, height, lastFrame, lastRotation := true, false, 0, 0, 0, Rotation0;
      apk, mainLog, renderLog := None, [], [];
    }

    /** show() and hide(), called by the subclass on its main loop. */
    method SetShow(value: bool)
      modifies this`show
      ensures show == value
    {
      show := value;
    }

    method CheckRotation(rotation: Option<int>) returns (changed: bool)
      modifies this`width, this`height, this`lastRotation
      ensures Rotated(Current(), changed) == Rotate(old(Current()), rotation)
    {
      if rotation.Some? {
        var r := rotation.value;
        if r != lastRotation {
          var neutral := Neutral(r);
          var lastNeutral := Neutral(lastRotation);
          lastRotation := r;
          if neutral != lastNeutral {
            width, height := height, width;
            return true;
          }
        }
      }
      return false;
    }

    method UpdateSurfaceVisibility() returns (transaction: bool)
      modifies this`isVisible
      ensures Shown(Current(), transaction) == Reconcile(old(Current()), show)
    {
      transaction := false;
      if show != isVisible {
        transaction := true;
        isVisible := show;
      }
    }

    method FpsLimiter(now: int) returns (sleep: int)
      modifies this`lastFrame
      ensures Paced(Current(), sleep) == Limit(old(Current()), now)
    {
      var diff := now - lastFrame;
      sleep := 0;
      if diff < FramePeriod {
        sleep := FramePeriod - diff;
      }
      lastFrame := now;
    }

    /** One pass of the render loop, with the show flag the main thread left. */
    method Frame(f: Frame) returns (events: seq<Event>)
      modifies this`show, this`isVisible, this`width, this`height, this`lastRotation, this`lastFrame
      ensures Trace(Current(), events) == FrameStep(old(Current()), f)
    {
      show := f.show;
      var shown := UpdateSurfaceVisibility();
      ghost var v := Shown(Current(), shown);
      var changed := CheckRotation(f.rotation);
      ghost var r := Rotated(Current(), changed);
      var sleep := FpsLimiter(f.now);
      ghost var p := Paced(Current(), sleep);
      var effects := [];
      if shown {
        effects := effects + [SetVisible(show)];
      }
      if changed {
        effects := effects + [OnResize(width, height)];
      }
      if sleep > 0 {
        effects := effects + [Sleep(sleep)];
      }
      assert effects == Effects(v, r, p, f.show);
      events := [RenderFrame] + effects;
    }

    /** The run method of the OpenGL render thread, over the frames it gets to
        draw before it is interrupted. */
    method RenderLoop(frames: seq<Frame>)
      modifies this`show, this`isVisible, this`width, this`height, this`lastRotation, this`lastFrame
      modifies this`renderLog
      ensures var t := Frames(old(Current()), frames);
        Current() == t.screen
        && renderLog == old(renderLog) + [OnSize(old(width), old(height)), OnInitRender] + t.events + [OnDoneRender]
    {
      ghost var s0 := Current();
      renderLog := renderLog + [OnSize(width, height), OnInitRender];
      ghost var log0 := renderLog;
      var i := 0;
      while i < |frames|
        invariant 0 <= i <= |frames|
        invariant Current() == Frames(s0, frames[..i]).screen
        invariant renderLog == log0 + Frames(s0, frames[..i]).events
      {
        var f := frames[i];
        assert frames[..i + 1][..i] == frames[..i] && frames[..i + 1][i] == f;
        var events := Frame(f);
        renderLog := renderLog + events;
        i := i + 1;
      }
      assert frames[..i] == frames;
      renderLog := renderLog + [OnDoneRender];
    }

    /** run.  The surface is sized from the first display configuration and
        rotated before the render thread starts; an empty configuration list
        throws, which run catches. */
    method Run(args: Option<seq<string>>, cb: Callbacks, configs: seq<Size>, rotation: Option<int>,
               frames: seq<Frame>) returns (outcome: Outcome)
      modifies this
      ensures !Accepted(cb) ==> outcome == Refused
      ensures outcome in {Refused, NoArgs} ==>
        mainLog == old(mainLog) && renderLog == old(renderLog) && apk == old(apk)
      ensures Accepted(cb) && (args.None? || |args.value| < ReservedArgs) ==> outcome == NoArgs
      ensures Accepted(cb) && args.Some? && |args.value| >= ReservedArgs ==>
        apk == Some(args.value[0])
        && (configs == [] ==> outcome == Failed && mainLog == old(mainLog) + [OnInit(args.value[1..])]
                              && renderLog == old(renderLog))
        && (configs != [] ==>
              var s := Rotate(old(Current()).(width := configs[0].width, height := configs[0].height), rotation).screen;
              var t := Frames(s, frames);
              outcome == Finished
              && mainLog == old(mainLog) + [OnInit(args.value[1..]), OnMainLoop, OnDone]
              && renderLog == old(renderLog) + [OnSize(s.width, s.height), OnInitRender] + t.events + [OnDoneRender]
              && Current() == t.screen)
    {
      if !Accepted(cb) {
        return Refused;
      }
      if args.None? || |args.value| < ReservedArgs {
        return NoArgs;
      }
      var a := args.value;
      apk := Some(a[0]);
      var initArgs := [];
      var i := 0;
      while i < |a| - ReservedArgs
        invariant 0 <= i <= |a| - ReservedArgs
        invariant initArgs == a[ReservedArgs..ReservedArgs + i]
      {
        initArgs := initArgs + [a[i + ReservedArgs]];
        i := i + 1;
      }
      assert a[ReservedArgs..ReservedArgs + i] == a[1..];
      mainLog := mainLog + [OnInit(initArgs)];
      if configs == [] {
        return Failed;
      }
      width, height := configs[0].width, configs[0].height;
      var _ := CheckRotation(rotation);
      // The render thread runs beside onMainLoop; its events go to their own log.
      RenderLoop(frames);
      mainLog := mainLog + [OnMainLoop, OnDone];
      outcome := Finished;
    }
  }
}
