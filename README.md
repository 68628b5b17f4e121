# vimg: a verified model of the viewer's geometry and event loop

vimg is a minimal image viewer. It opens a window at the desktop resolution and shows one
image, fitted and centred. The user can pan by dragging with the left button, zoom with
the wheel, toggle fullscreen with F, restore actual size with 0, re-fit with R, and quit
with Q. When the window is resized, the desktop-sized logical canvas is letterboxed or
pillarboxed so that its aspect ratio is kept.

This project models the three pieces of logic in `src/main.rs` and proves their
properties:

- `viewport.dfy`, module `Viewport`, models `resize_keep_ratio`, a pure function. It
  covers the empty rectangle for a zero-sized window, the pillarbox for a window that is
  relatively wider and the letterbox for one that is relatively taller. The proofs show
  that the rectangle lies inside the unit square, that its bars are equal, that the
  canvas's aspect ratio is kept exactly, that scaling the window by a whole factor changes nothing, and
  that each shape happens exactly when its ratio condition holds.
- `image_fit.dfy`, module `ImageFit`, models `center_and_maximize`. The `as u32` cast is
  modelled as a saturating truncation (`AsU32`), and the `Sprite` is a class that the
  method updates in place. The scale (`Scale`) and the whole-pixel offset (`Offset`) are
  functions. The proofs show that the scale is the smaller per-axis ratio, that the
  image fits on both axes and fills the limiting one, and that the centring subtraction
  cannot underflow. They also show that the two margins differ by at most one pixel.
- `interaction.dfy`, module `Interaction`, models the body of `main`'s event loop.
  `Next` is the specification of one iteration: dispatch, then take the scheduled
  window change, then draw if dirty. `Run` is the specification of a sequence of
  iterations. The class `Viewer` holds the loop's mutable locals (`cur_style`,
  `scheduled_win_change`, `view`, `dragging`, `prev_mouse_pos`, `dirty`, the sprite) plus
  the window's mode and current camera. Its `Step` method is proved against `Next`, and
  `HandleAll` (the loop over delivered events) is proved against `Run`. The lemmas cover
  drag telescoping, the F toggle, zoom drift, resizing, the redraw rule and the
  lifecycle of the `dragging` flag.
- `geometry.dfy`, module `Geometry`, holds the shared value types: `U32`, `I32`, float
  vectors, sizes and rectangles.

Modelling assumptions:

- `f32` is modelled as `real`, so IEEE rounding and NaN are outside the model.
- The set-up reads `win.size()` to fit the sprite and to build the first camera, and the
  constructor takes it as a parameter. Inside the loop, only the R key reads it. `Step`
  takes it as a parameter, and `Run` keeps it fixed over the run.
- A window created for a fullscreen toggle is modelled as showing SFML's default camera
  over the desktop resolution it was created with.
- Drawing is modelled as a count of presented frames (`frames`).

Two behaviours of the code are easy to miss:

- A negative wheel delta multiplies the camera's extent by 1.1, which zooms out. Any
  other delta multiplies it by 0.9. A zoom out followed by a zoom in therefore leaves
  the extent at 0.99 of its original size (`ZoomOutThenInDrifts`), not at its original
  size.
- When the scheduled window replaces the current one, the code does not re-apply the
  loop's camera to it. The new window shows its default camera until an event sets a
  camera on it (`ToggleFullscreenTwice`): a scroll or a drag sets the loop's camera, and
  a resize sets the letterboxed canvas camera. In the same way, a scroll or drag after a
  resize replaces the letterboxed camera by the loop's camera, whose viewport is the
  whole window.

## Model

| member | source | states |
|---|---|---|
| `Viewport.ResizeKeepRatio` | src/main.rs:149-179 | A window with a zero dimension gets the all-zero rectangle. Otherwise the target must be non-zero, and the result is a non-empty rectangle inside the unit square with a width or a height of 1. |
| `Viewport.PillarboxWhenWider` | src/main.rs:162-170 | The window is relatively wider (`w*th > h*tw`) exactly when the result has top 0, height 1 and width < 1. The width is then `(h*tw)/(w*th)`, and `left == (1-width)/2`, so `left + width + left == 1`. |
| `Viewport.LetterboxWhenTaller` | src/main.rs:162-174 | The window is relatively taller exactly when the result has left 0, width 1 and height < 1. The height is then `(w*th)/(h*tw)`, and the top and bottom bars are equal. |
| `Viewport.FullWhenRatiosAgree` | src/main.rs:165-176 | Equal ratios, and only they, give exactly (0,0,1,1). |
| `Viewport.KeepsAspectRatio` | src/main.rs:162-178 | Measured in window pixels, the fitted viewport has exactly the target's aspect ratio. |
| `Viewport.ScaleInvariant` | src/main.rs:162-178 | Multiplying both window dimensions by the same whole factor leaves the viewport unchanged. |
| `Viewport.MultipleOfTargetIsFull` | src/main.rs:162-176 | A window that is a whole multiple of the desktop resolution (for example double it) is shown over the whole window. |
| `ImageFit.Ratio` | src/main.rs:184-185 | A per-axis ratio is non-negative. |
| `ImageFit.AsU32` | src/main.rs:187 | The cast to `u32` sends negatives to 0. In range, it drops the fraction: the result is at most its argument and greater than the argument minus 1. It never exceeds a non-negative argument. |
| `ImageFit.CentredOffset` | src/main.rs:187-188 | When the scaled extent fits, `(win - trunc(scaled)) / 2` does not underflow. The margins before and after the truncated extent differ by at most one pixel. |
| `ImageFit.Scale` | src/main.rs:184-195 | The uniform scale is at most both per-axis ratios and equal to one of them, that is, the smaller one. |
| `ImageFit.Offset` | src/main.rs:186-194 | The image is offset on at most one axis. |
| `ImageFit.Fit` | src/main.rs:181-197 | The placement uses one scale on both axes. Its top-left corner is at a whole, non-negative pixel, and it lies on the window's edge on at least one axis. |
| `ImageFit.FitMaximizes` | src/main.rs:181-197 | Under the placement's single scale, the image fits inside the window on both axes and fills it on at least one (`MaximalIn`). |
| `ImageFit.FitCentres` | src/main.rs:186-194 | On both axes, the margins before and after the truncated scaled extent differ by at most one pixel (`Balanced`). The image is centred across when the height limits the scale and centred down otherwise. On the limiting axis it fills the window from the edge. |
| `ImageFit.ScaleIsMaximal` | src/main.rs:184-195 | Under the chosen scale the image fits in the window on both axes and fills it on at least one. |
| `ImageFit.TieFillsExactly` | src/main.rs:186-195 | When the two ratios tie, the x ratio's branch is taken and the image sits at the origin. |
| `ImageFit.CentredAcross` | src/main.rs:186-190 | When the height limits the scale, the image is at top 0, and the left and right margins of the truncated scaled width differ by at most one pixel. |
| `ImageFit.CentredDown` | src/main.rs:191-195 | When the width limits the scale (or the ratios tie), the image is at left 0, and the top and bottom margins of the truncated scaled height differ by at most one pixel. |
| `ImageFit.FitScenarioQhd` | src/main.rs:181-197 | A 1920x1080 image on a 2560x1440 window is scaled by 4/3 and placed at the origin. |
| `ImageFit.FitScenarioPillarbox` | src/main.rs:181-190 | A 100x100 image on a 300x100 window is scaled by 1 and centred across at x = 100. |
| `ImageFit.Sprite.WithTexture` | src/main.rs:48 | A new sprite is at the origin with scale (1,1). |
| `ImageFit.CenterAndMaximize` | src/main.rs:181-197 | The method sets the sprite's position and scale to the fitted placement. |
| `Interaction.Toggle` | src/main.rs:67-70 | Toggling always changes the window mode. |
| `Interaction.ViewFromRect` | src/main.rs:53 | A camera built from a rectangle shows that rectangle (its size and top-left corner) over the whole window. |
| `Interaction.Start` | src/main.rs:32-59 | The loop starts in the default mode, not dragging, with nothing scheduled, no frames drawn, a first frame pending, and the window showing the loop's camera. |
| `Interaction.ScrollFactor` | src/main.rs:97 | The zoom factor is positive. It enlarges the camera's extent (zooms out) exactly when the delta is negative, and shrinks it (zooms in) exactly when the delta is zero or positive. |
| `Interaction.Quits` | src/main.rs:64 | A window close and the Q key are the events that end the loop. `RunStopsAtQuit` shows that no event after them is handled. |
| `Interaction.Dispatch` | src/main.rs:63-130 | The match on the event draws nothing and never clears `dirty`. Only F changes the window mode, which it always does, and only F touches the scheduled window change. |
| `Interaction.TakeScheduled` | src/main.rs:132-137 | The pending window slot is empty after it is taken. |
| `Interaction.Redraw` | src/main.rs:139-144 | Nothing is dirty after the redraw step. |
| `Interaction.Next` | src/main.rs:61-145 | After every non-quitting iteration, `dirty` is false and no window change is scheduled. |
| `Interaction.Run` | src/main.rs:61-146 | Handling events in order never decreases the count of drawn frames, and a settled state (nothing dirty, nothing scheduled) stays settled. |
| `Interaction.RunStopsAtQuit` | src/main.rs:64 | When a quitting event follows events that do not quit, the run ends there: the events after it have no effect. |
| `Interaction.Viewer.constructor` | src/main.rs:32-59 | The set-up yields the `Start` state, with the sprite fitted by `center_and_maximize`. |
| `Interaction.Viewer.Step` | src/main.rs:62-145 | Closed and Q end the loop and change nothing. Every other event moves the state exactly as `Next` says. |
| `Interaction.Viewer.HandleAll` | src/main.rs:61-146 | Handling the delivered events in order reaches `Run`'s state. The method reports a quit exactly when some event quits. |
| `Interaction.Viewer.HandleEvent` | src/main.rs:63-130 | The dispatch on the event's kind updates the fields as `Dispatch` says. |
| `Interaction.Viewer.TakeScheduledWinChange` | src/main.rs:132-137 | A scheduled window replaces the current one and forces a redraw, and the slot is emptied. |
| `Interaction.Viewer.Present` | src/main.rs:139-144 | A frame is drawn exactly when something is dirty, and the dirty flag is then cleared. |
| `Interaction.RedrawsExactlyWhenChanged` | src/main.rs:78-144 | An iteration draws one frame exactly when something was dirty or scheduled, or when the event changes the picture (F, 0, R, resize, wheel, or a move while dragging). Otherwise it draws none. |
| `Interaction.DraggingOnlyByLeftButtonOrFocus` | src/main.rs:102-128 | After an iteration, `dragging` holds exactly when the event was a left press, or when dragging was already on and the event was neither a left release nor a focus loss. |
| `Interaction.MoveWithoutDragOnlyRecords` | src/main.rs:114-125 | A pointer move while not dragging changes only `prev_mouse_pos`. |
| `Interaction.DragMovesCameraAgainstPointer` | src/main.rs:114-125 | A pointer move while dragging moves the camera by `-(cur - prev)`, sets the camera on the window, records the position and draws one frame. |
| `Interaction.IdleMovesKeepCamera` | src/main.rs:114-125 | Any run of moves without dragging leaves everything except the last recorded position unchanged. |
| `Interaction.DragRunTelescopes` | src/main.rs:114-125 | A run of moves while dragging moves the camera by `-(last - prev_at_start)` and draws one frame per move. |
| `Interaction.ToggleFullscreenTwice` | src/main.rs:66-77 | F toggles the mode and swaps in a new window in the same iteration, without touching the camera or the sprite. A second F restores the mode. |
| `Interaction.ScrollZooms` | src/main.rs:96-100 | A wheel event scales the camera's extent about the same centre, by 1.1 for a negative delta and by 0.9 otherwise, and sets the camera on the window. |
| `Interaction.ZoomOutThenInDrifts` | src/main.rs:96-100 | A negative then a non-negative wheel delta leave the extent at 0.99 times the original. |
| `Interaction.ResizeKeepsCamera` | src/main.rs:88-95 | A resize sets the window's camera over the desktop canvas with the fitted viewport. The loop's own camera, which line 91 shadows, and the sprite are unchanged. |
| `Interaction.ActualSizeKeepsPosition` | src/main.rs:78-81 | 0 (main row or numpad) sets the sprite scale to (1,1) and keeps its position. |
| `Interaction.ResetRefits` | src/main.rs:82-85 | R fits the sprite again to the window's current size. |

## Left out

- Window creation, `set_position`, vsync and the clear/draw/display calls are SFML I/O. The model keeps only each window's mode and camera, and a count of presented frames.
- An iteration in which `wait_event` returns `None` does nothing, so it has no step of its own.
- Reading the image path from the arguments and loading the texture are process and file I/O that panic on failure. The texture's size is a fixed, positive parameter.
- `WinStyle::get_style` maps onto foreign SFML style constants. Only the two-variant mode and its toggle are modelled.
- Floats are reals: no IEEE rounding and no NaN. The `_` arm of `partial_cmp` is therefore reached only when the ratios are equal.
- The commented-out Windows maximise call is not modelled.
- Interaction.Next: the 32-bit pointer difference `cur - prev_mouse_pos` is taken exactly. Overflow at extreme coordinates is not modelled.
- Interaction.Run: the size the window reports is the same for every event of a run. Only the R key reads it.
- Interaction.Next: a freshly created window is assumed to have the desktop resolution it was requested with. Its default camera is built from that size.
