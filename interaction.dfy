/** The interaction state machine: one iteration of the viewer's event loop turns
    one input event into a new camera, sprite, window mode and redraw count. */
module Interaction {
  import opened Geometry
  import Viewport
  import ImageFit

  datatype Option<T> = None | Some(value: T)

  /** The two window modes. */
  datatype WinStyle = Default | Fullscreen

  /** The other window mode. */
  function Toggle(style: WinStyle): (r: WinStyle)
    ensures r != style
  {
    match style
    case Default => Fullscreen
    case Fullscreen => Default
  }

  /** The keys the viewer reacts to; every other key is `OtherKey`. */
  datatype Key = Q | F | Num0 | Numpad0 | R | OtherKey

  datatype Button = Left | Right | Middle | OtherButton

  /** The input events the viewer distinguishes; every other event is `OtherEvent`. */
  datatype Event =
    | Closed
    | KeyPressed(code: Key)
    | Resized(width: U32, height: U32)
    | MouseWheelScrolled(delta: real)
    | MouseButtonPressed(button: Button)
    | MouseButtonReleased(button: Button)
    | MouseMoved(x: I32, y: I32)
    | LostFocus
    | OtherEvent

  /** A 2D camera: the canvas region around `center` of extent `size` is shown in
      the `viewport` fraction of the window. */
  datatype View = View(center: Vec2, size: Vec2, viewport: Rect) {
    /** Multiplies the visible extent by `factor` about the same centre. */
    function Zoom(factor: real): View {
      this.(size := size.Scaled(factor))
    }

    /** Translates the camera by `offset`. */
    function Move(offset: Vec2): View {
      this.(center := center.Plus(offset))
    }
  }

  /** The camera that shows exactly the rectangle `r`, over the whole window. */
  function ViewFromRect(r: Rect): (v: View)
    ensures v.size == Vec2(r.width, r.height) && v.viewport == Viewport.Full
    ensures v.center.x - v.size.x / 2.0 == r.left && v.center.y - v.size.y / 2.0 == r.top
  {
    View(Vec2(r.left + r.width / 2.0, r.top + r.height / 2.0), Vec2(r.width, r.height), Viewport.Full)
  }

  /** The camera over the canvas of `size` pixels anchored at the origin. */
  function CanvasView(size: Size): View {
    ViewFromRect(Rect(0.0, 0.0, size.width as real, size.height as real))
  }

  /** What the model keeps of a window: its mode and the camera last set on it. */
  datatype Window = Window(style: WinStyle, view: View)

  /** A freshly created window over the desktop resolution, showing its default
      camera. */
  function NewWindow(style: WinStyle, desktop: Size): Window {
    Window(style, CanvasView(desktop))
  }

  /** What stays fixed while the loop runs: the desktop resolution (the logical
      canvas) and the size of the loaded texture, all positive. */
  datatype Config = Config(desktop: Size, texture: Size) {
    predicate Valid() {
      desktop.width > 0 && desktop.height > 0 && texture.width > 0 && texture.height > 0
    }
  }

  /** The loop's whole state between two events. `frames` counts the frames drawn
      and presented. */
  datatype AppState = AppState(
    curStyle: WinStyle,
    window: Window,
    scheduledWinChange: Option<Window>,
    view: View,
    dragging: bool,
    prevMousePos: Vec2i,
    spritePosition: Vec2,
    spriteScale: Vec2,
    dirty: bool,
    frames: nat)

  /** The state on entry to the loop, for a window whose real size is `winSize`:
      the image fitted to the window, the camera over the window, a first frame
      pending. */
  function Start(c: Config, winSize: Size): (s: AppState)
    requires c.Valid()
    ensures s.dirty && !s.dragging && s.scheduledWinChange == None && s.frames == 0
    ensures s.window.view == s.view && s.curStyle == Default
  {
    var placement := ImageFit.Fit(winSize, c.texture);
    var view := CanvasView(winSize);
    AppState(Default, Window(Default, view), None, view, false, Vec2i(0, 0),
             placement.position, placement.scale, true, 0)
  }

  /** The events that end the loop, and the program, at once. */
  predicate Quits(e: Event) {
    e == Closed || e == KeyPressed(Q)
  }

  /** The factor by which a wheel movement multiplies the camera's extent: a
      negative delta enlarges the extent (zooms out), any other delta, zero
      included, shrinks it (zooms in). The factor is never zero, so a zoom never
      collapses the camera. */
  function ScrollFactor(delta: real): (f: real)
    ensures f > 0.0
    ensures f > 1.0 <==> delta < 0.0
    ensures f < 1.0 <==> delta >= 0.0
  {
    if delta < 0.0 then 1.1 else 0.9
  }

  /** The effect of one non-quitting event on the state, before the scheduled window
      change is taken and before the frame is drawn. `winSize` is the size the
      window reports at that moment. */
  function Dispatch(c: Config, s: AppState, e: Event, winSize: Size): (r: AppState)
    requires c.Valid() && !Quits(e)
    ensures r.frames == s.frames
    ensures s.dirty ==> r.dirty
    ensures r.curStyle != s.curStyle <==> e == KeyPressed(F)
    ensures e != KeyPressed(F) ==> r.scheduledWinChange == s.scheduledWinChange
  {
    match e
    case KeyPressed(code) =>
      if code == F then
        var style := Toggle(s.curStyle);
        s.(curStyle := style, scheduledWinChange := Some(NewWindow(style, c.desktop)))
      else if code == Num0 || code == Numpad0 then
        s.(spriteScale := Vec2(1.0, 1.0), dirty := true)
      else if code == R then
        var placement := ImageFit.Fit(winSize, c.texture);
        s.(spritePosition := placement.position, spriteScale := placement.scale, dirty := true)
      else
        s
    case Resized(width, height) =>
      var viewport := Viewport.ResizeKeepRatio(width, height, c.desktop);
      var view := CanvasView(c.desktop).(viewport := viewport);
      s.(window := s.window.(view := view), dirty := true)
    case MouseWheelScrolled(delta) =>
      var view := s.view.Zoom(ScrollFactor(delta));
      s.(view := view, window := s.window.(view := view), dirty := true)
    case MouseButtonPressed(button) =>
      if button == Left then s.(dragging := true) else s
    case MouseButtonReleased(button) =>
      if button == Left then s.(dragging := false) else s
    case MouseMoved(x, y) =>
      var cur := Vec2i(x, y);
      if s.dragging then
        var view := s.view.Move(Delta(cur, s.prevMousePos).Negated());
        s.(view := view, window := s.window.(view := view), dirty := true, prevMousePos := cur)
      else
        s.(prevMousePos := cur)
    case LostFocus =>
      s.(dragging := false)
    case _ =>
      s
  }

  /** Takes the scheduled window change, if any: the new window replaces the old
      one and forces a redraw. */
  function TakeScheduled(s: AppState): (r: AppState)
    ensures r.scheduledWinChange == None
  {
    match s.scheduledWinChange
    case Some(w) => s.(window := w, scheduledWinChange := None, dirty := true)
    case None => s
  }

  /** Draws and presents one frame if anything is dirty. */
  function Redraw(s: AppState): (r: AppState)
    ensures !r.dirty
  {
    if s.dirty then s.(frames := s.frames + 1, dirty := false) else s
  }

  /** One whole iteration of the loop for a non-quitting event. */
  function Next(c: Config, s: AppState, e: Event, winSize: Size): (r: AppState)
    requires c.Valid() && !Quits(e)
    ensures !r.dirty && r.scheduledWinChange == None
  {
    Redraw(TakeScheduled(Dispatch(c, s, e, winSize)))
  }

  /** The state after the loop has handled `events` in order, the window reporting
      `winSize` throughout; a quitting event ends the run. */
  function Run(c: Config, s: AppState, events: seq<Event>, winSize: Size): (r: AppState)
    requires c.Valid()
    ensures r.frames >= s.frames
    ensures Settled(s) ==> Settled(r)
    decreases |events|
  {
    if events == [] || Quits(events[0]) then s
    else Run(c, Next(c, s, events[0], winSize), events[1..], winSize)
  }

  /** The event loop's mutable state. The sprite is shared with the image fitter,
      which updates it in place. */
  class Viewer {
    const config: Config
    const sprite: ImageFit.Sprite
    var curStyle: WinStyle
    var window: Window
    var scheduledWinChange: Option<Window>
    var view: View
    var dragging: bool
    var prevMousePos: Vec2i
    var dirty: bool
    var frames: nat

    ghost predicate Valid()
      reads this
    {
      config.Valid()
    }

    /** The state as a value. */
    function State(): AppState
      reads this, sprite
    {
      AppState(curStyle, window, scheduledWinChange, view, dragging, prevMousePos,
               sprite.position, sprite.scale, dirty, frames)
    }

    /** The set-up before the loop: the window opens in the default mode over the
        desktop, reports its real size `winSize`, and the image is fitted to it. */
    constructor (desktop: Size, texture: Size, winSize: Size)
      requires Config(desktop, texture).Valid()
      ensures Valid() && fresh(sprite) && config == Config(desktop, texture)
      ensures State() == Start(config, winSize)
    {
      config := Config(desktop, texture);
      sprite := new ImageFit.Sprite.WithTexture();
      curStyle := Default;
      scheduledWinChange := None;
      view := CanvasView(winSize);
      window := Window(Default, view);
      dragging := false;
      prevMousePos := Vec2i(0, 0);
      dirty := true;
      frames := 0;
      new;
      ImageFit.CenterAndMaximize(winSize, texture, sprite);
    }

    /** Handles one event: dispatches it, takes the scheduled window change, and
        draws a frame if anything changed. Returns true on a quitting event, which
        leaves everything as it was. */
    method Step(e: Event, winSize: Size) returns (quit: bool)
      requires Valid()
      modifies this, sprite
      ensures Valid()
      ensures quit == Quits(e)
      ensures quit ==> State() == old(State())
      ensures !quit ==> State() == Next(config, old(State()), e, winSize)
    {
      if Quits(e) {
        return true;
      }
      quit := false;
      HandleEvent(e, winSize);
      TakeScheduledWinChange();
      Present();
    }

    /** The loop itself over the events the window delivers, in order: each is
        handled in turn until a quitting event returns from the loop. */
    method HandleAll(events: seq<Event>, winSize: Size) returns (quit: bool)
      requires Valid()
      modifies this, sprite
      ensures Valid()
      ensures State() == Run(config, old(State()), events, winSize)
      ensures quit <==> exists k :: 0 <= k < |events| && Quits(events[k])
    {
      var i := 0;
      quit := false;
      while i < |events| && !quit
        invariant 0 <= i <= |events| && Valid()
        invariant !quit ==> Run(config, State(), events[i..], winSize) == Run(config, old(State()), events, winSize)
        invariant quit ==> State() == Run(config, old(State()), events, winSize)
        invariant !quit ==> forall k :: 0 <= k < i ==> !Quits(events[k])
        invariant quit ==> 0 < i && Quits(events[i - 1])
        decreases |events| - i
      {
        ghost var before := State();
        quit := Step(events[i], winSize);
        if quit {
          assert Run(config, before, events[i..], winSize) == before;
        }
        i := i + 1;
      }
    }

    /** The dispatch on the event's kind. */
    method HandleEvent(e: Event, winSize: Size)
      requires Valid() && !Quits(e)
      modifies this, sprite
      ensures Valid()
      ensures State() == Dispatch(config, old(State()), e, winSize)
    {
      match e {
        case KeyPressed(code) =>
          if code == F {
            curStyle := Toggle(curStyle);
            scheduledWinChange := Some(NewWindow(curStyle, config.desktop));
          } else if code == Num0 || code == Numpad0 {
            sprite.scale := Vec2(1.0, 1.0);
            dirty := true;
          } else if code == R {
            ImageFit.CenterAndMaximize(winSize, config.texture, sprite);
            dirty := true;
          }
        case Resized(width, height) =>
          var viewport := Viewport.ResizeKeepRatio(width, height, config.desktop);
          var resizedView := CanvasView(config.desktop).(viewport := viewport);
          window := window.(view := resizedView);
          dirty := true;
        case MouseWheelScrolled(delta) =>
          view := view.Zoom(ScrollFactor(delta));
          window := window.(view := view);
          dirty := true;
        case MouseButtonPressed(button) =>
          if button == Left {
            dragging := true;
          }
        case MouseButtonReleased(button) =>
          if button == Left {
            dragging := false;
          }
        case MouseMoved(x, y) =>
          var cur := Vec2i(x, y);
          if dragging {
            view := view.Move(Delta(cur, prevMousePos).Negated());
            window := window.(view := view);
            dirty := true;
          }
          prevMousePos := cur;
        case LostFocus =>
          dragging := false;
        case _ =>
      }
    }

    /** Replaces the window by the scheduled one, if any, and forces a redraw. */
    method TakeScheduledWinChange()
      modifies this
      ensures State() == TakeScheduled(old(State()))
    {
      if scheduledWinChange.Some? {
        window := scheduledWinChange.value;
        scheduledWinChange := None;
        dirty := true;
      }
    }

    /** Clears, draws the sprite and displays the frame if anything is dirty. */
    method Present()
      modifies this
      ensures State() == Redraw(old(State()))
    {
      if dirty {
        frames := frames + 1;
        dirty := false;
      }
    }
  }

  /** The state between two events once the loop is running: no window change is
      scheduled and nothing is left undrawn. */
  predicate Settled(s: AppState) {
    s.scheduledWinChange == None && !s.dirty
  }

  /** The events that change what is on screen, so that a frame must be drawn. */
  predicate Mutates(s: AppState, e: Event) {
    match e
    case KeyPressed(code) => code in {F, Num0, Numpad0, R}
    case Resized(_, _) => true
    case MouseWheelScrolled(_) => true
    case MouseMoved(_, _) => s.dragging
    case _ => false
  }

  /** Exactly one frame is drawn by an iteration in which something was pending or
      the event changed something, and none otherwise. */
  lemma RedrawsExactlyWhenChanged(c: Config, s: AppState, e: Event, winSize: Size)
    requires c.Valid() && !Quits(e)
    ensures Next(c, s, e, winSize).frames ==
      s.frames + (if s.dirty || s.scheduledWinChange.Some? || Mutates(s, e) then 1 else 0)
  {
  }

  /** Dragging starts only on a left-button press and ends only on a left-button
      release or on a loss of focus; no other event touches it. */
  lemma DraggingOnlyByLeftButtonOrFocus(c: Config, s: AppState, e: Event, winSize: Size)
    requires c.Valid() && !Quits(e)
    ensures Next(c, s, e, winSize).dragging <==>
      e == MouseButtonPressed(Left) ||
      (s.dragging && e != MouseButtonReleased(Left) && e != LostFocus)
  {
  }

  /** A pointer move while not dragging only records the position: the camera, the
      window, the sprite are untouched and no frame is drawn. */
  lemma MoveWithoutDragOnlyRecords(c: Config, s: AppState, x: I32, y: I32, winSize: Size)
    requires c.Valid() && Settled(s) && !s.dragging
    ensures Next(c, s, MouseMoved(x, y), winSize) == s.(prevMousePos := Vec2i(x, y))
  {
  }

  /** A pointer move while dragging pulls the camera the opposite way by the
      pointer's movement, sets it on the window and draws one frame. */
  lemma DragMovesCameraAgainstPointer(c: Config, s: AppState, x: I32, y: I32, winSize: Size)
    requires c.Valid() && Settled(s) && s.dragging
    ensures var view := s.view.Move(Delta(Vec2i(x, y), s.prevMousePos).Negated());
      Next(c, s, MouseMoved(x, y), winSize) ==
        s.(view := view, window := s.window.(view := view), prevMousePos := Vec2i(x, y),
           frames := s.frames + 1)
  {
  }

  /** Every event is a pointer move. */
  predicate AllMoves(events: seq<Event>) {
    forall k :: 0 <= k < |events| ==> events[k].MouseMoved?
  }

  /** The position of the last of a non-empty run of pointer moves. */
  function LastPosition(events: seq<Event>): Vec2i
    requires |events| > 0 && AllMoves(events)
  {
    var e := events[|events| - 1];
    Vec2i(e.x, e.y)
  }

  /** Any run of pointer moves without dragging leaves the camera, the window and
      the sprite as they were, draws nothing, and records the last position. */
  lemma {:induction false} IdleMovesKeepCamera(c: Config, s: AppState, events: seq<Event>, winSize: Size)
    requires c.Valid() && Settled(s) && !s.dragging
    requires |events| > 0 && AllMoves(events)
    ensures Run(c, s, events, winSize) == s.(prevMousePos := LastPosition(events))
    decreases |events|
  {
    var e := events[0];
    MoveWithoutDragOnlyRecords(c, s, e.x, e.y, winSize);
    var s1 := s.(prevMousePos := Vec2i(e.x, e.y));
    if |events| > 1 {
      IdleMovesKeepCamera(c, s1, events[1..], winSize);
      assert LastPosition(events[1..]) == LastPosition(events);
    }
  }

  /** Composing two camera translations is translating by their sum. */
  lemma MovesCompose(v: View, a: Vec2, b: Vec2)
    ensures v.Move(a).Move(b) == v.Move(a.Plus(b))
  {
  }

  /** Consecutive pointer deltas add up to the delta between the ends. */
  lemma DeltasTelescope(p0: Vec2i, p1: Vec2i, p2: Vec2i)
    ensures Delta(p1, p0).Negated().Plus(Delta(p2, p1).Negated()) == Delta(p2, p0).Negated()
  {
  }

  /** Over a run of pointer moves while dragging, the per-move deltas telescope: the
      camera ends up moved against the pointer by the distance from the position
      recorded before the run to the last position, one frame is drawn per move, and
      dragging goes on. */
  lemma {:induction false} DragRunTelescopes(c: Config, s: AppState, events: seq<Event>, winSize: Size)
    requires c.Valid() && Settled(s) && s.dragging
    requires |events| > 0 && AllMoves(events)
    ensures var r, view := Run(c, s, events, winSize), s.view.Move(Delta(LastPosition(events), s.prevMousePos).Negated());
      r == s.(view := view, window := s.window.(view := view), prevMousePos := LastPosition(events),
              frames := s.frames + |events|)
    decreases |events|
  {
    var e := events[0];
    var cur := Vec2i(e.x, e.y);
    DragMovesCameraAgainstPointer(c, s, e.x, e.y, winSize);
    var view1 := s.view.Move(Delta(cur, s.prevMousePos).Negated());
    var s1 := s.(view := view1, window := s.window.(view := view1), prevMousePos := cur, frames := s.frames + 1);
    if |events| > 1 {
      var rest := events[1..];
      DragRunTelescopes(c, s1, rest, winSize);
      assert LastPosition(rest) == LastPosition(events);
      MovesCompose(s.view, Delta(cur, s.prevMousePos).Negated(), Delta(LastPosition(events), cur).Negated());
      DeltasTelescope(s.prevMousePos, cur, LastPosition(events));
    }
  }

  /** Pressing F toggles the mode and replaces the window by a new one in that mode
      at the end of the same iteration, with one frame drawn; the camera, the sprite
      and the pointer state are untouched. Pressing it again restores the mode. */
  lemma {:induction false} ToggleFullscreenTwice(c: Config, s: AppState, winSize: Size)
    requires c.Valid() && Settled(s)
    ensures var once := Next(c, s, KeyPressed(F), winSize);
      once == s.(curStyle := Toggle(s.curStyle), window := NewWindow(Toggle(s.curStyle), c.desktop),
                 frames := s.frames + 1)
    ensures var twice := Next(c, Next(c, s, KeyPressed(F), winSize), KeyPressed(F), winSize);
      twice == s.(window := NewWindow(s.curStyle, c.desktop), frames := s.frames + 2)
  {
    var once := Next(c, s, KeyPressed(F), winSize);
    assert Toggle(Toggle(s.curStyle)) == s.curStyle;
    assert Next(c, once, KeyPressed(F), winSize) == once.(curStyle := s.curStyle, window := NewWindow(s.curStyle, c.desktop), frames := s.frames + 2);
  }

  /** A wheel movement scales the camera's extent about the same centre, by 1.1
      for a negative delta and by 0.9 otherwise, and sets the camera on the
      window. */
  lemma ScrollZooms(c: Config, s: AppState, delta: real, winSize: Size)
    requires c.Valid() && Settled(s)
    ensures delta < 0.0 ==> ScrollFactor(delta) == 1.1
    ensures delta >= 0.0 ==> ScrollFactor(delta) == 0.9
    ensures var view := s.view.Zoom(ScrollFactor(delta));
      Next(c, s, MouseWheelScrolled(delta), winSize) ==
        s.(view := view, window := s.window.(view := view), frames := s.frames + 1)
  {
  }

  /** A negative wheel movement followed by a non-negative one leaves the camera's
      extent at 0.99 times what it was, not at its original size. */
  lemma {:induction false} ZoomOutThenInDrifts(c: Config, s: AppState, d1: real, d2: real, winSize: Size)
    requires c.Valid() && Settled(s) && d1 < 0.0 && d2 >= 0.0
    ensures var r := Next(c, Next(c, s, MouseWheelScrolled(d1), winSize), MouseWheelScrolled(d2), winSize);
      r.view == s.view.(size := s.view.size.Scaled(0.99)) && r.window.view == r.view
  {
    ScrollZooms(c, s, d1, winSize);
    var s1 := Next(c, s, MouseWheelScrolled(d1), winSize);
    ScrollZooms(c, s1, d2, winSize);
    assert s.view.size.Scaled(1.1).Scaled(0.9) == s.view.size.Scaled(0.99);
  }

  /** A resize sets on the window a new camera over the desktop canvas with the
      fitted viewport, and leaves the loop's own camera and the sprite alone. */
  lemma ResizeKeepsCamera(c: Config, s: AppState, width: U32, height: U32, winSize: Size)
    requires c.Valid() && Settled(s)
    ensures var r := Next(c, s, Resized(width, height), winSize);
      r.view == s.view &&
      r.window.view == CanvasView(c.desktop).(viewport := Viewport.ResizeKeepRatio(width, height, c.desktop)) &&
      r == s.(window := r.window, frames := s.frames + 1)
  {
  }

  /** The actual-size key resets the sprite's scale to 1 and keeps its position. */
  lemma ActualSizeKeepsPosition(c: Config, s: AppState, key: Key, winSize: Size)
    requires c.Valid() && Settled(s) && (key == Num0 || key == Numpad0)
    ensures Next(c, s, KeyPressed(key), winSize) ==
      s.(spriteScale := Vec2(1.0, 1.0), frames := s.frames + 1)
  {
  }

  /** The reset key fits the image to the window's current size again. */
  lemma ResetRefits(c: Config, s: AppState, winSize: Size)
    requires c.Valid() && Settled(s)
    ensures var p := ImageFit.Fit(winSize, c.texture);
      Next(c, s, KeyPressed(R), winSize) ==
        s.(spritePosition := p.position, spriteScale := p.scale, frames := s.frames + 1)
  {
  }

  /** A quitting event ends the run: the events after it are never handled. */
  lemma {:induction false} RunStopsAtQuit(c: Config, s: AppState, before: seq<Event>, e: Event, after: seq<Event>, winSize: Size)
    requires c.Valid() && Quits(e)
    requires forall k :: 0 <= k < |before| ==> !Quits(before[k])
    ensures Run(c, s, before + [e] + after, winSize) == Run(c, s, before, winSize)
    decreases |before|
  {
    var events := before + [e] + after;
    if before == [] {
      assert events[0] == e;
    } else {
      assert events[0] == before[0];
      assert events[1..] == before[1..] + [e] + after;
      RunStopsAtQuit(c, Next(c, s, before[0], winSize), before[1..], e, after, winSize);
    }
  }
}
