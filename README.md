# Point picker widget: state and coordinate model

This project models the state logic of Pinta's `PointPickerGraphic`. It is a small
GTK drawing area that lets the user pick a point. The point is an offset from the
widget's centre, measured in image pixels, and the widget draws it as a crosshair
over a thumbnail of the image. The model covers:

- the `Position` property, which stores a new value and raises `PositionChanged` only
  when the value differs from the current one;
- the drag gesture: a left-button press starts tracking; motion while tracking moves
  the position; any release while tracking ends the gesture, and a left-button
  release also moves the position one last time;
- the two coordinate transforms: pointer to position (`MousePtToPosition`) and
  position to widget point (`PositionToClientPt`);
- whether the cached thumbnail is there, and at what size: a size request drops it,
  a size allocation rebuilds it, and an expose rebuilds it if it is missing.

Files:

- `transform.dfy` (module `Transform`) holds the transforms as functions, with lemmas
  about them.
- `widget.dfy` (module `PointPicker`) holds the widget's state as a value (`Widget`),
  a `Step` function with one case per handler, and `Run` over a sequence of events. It also
  holds the class `PointPickerGraphic`, whose fields `tracking`, `position`,
  `notifications` and `thumbnail` are updated in place by its handler methods. Each
  handler ensures `State() == Step(old(State()), e)`.
- `gestures.dfy` (module `Gestures`) holds the lemmas about single events and about
  whole sequences of events.

Modelling choices:

- `PositionChanged` is modelled by the counter `notifications`, which counts how
  often the event was raised.
- The allocation, its centre (`Allocation.Center()`) and the image size
  (`PintaCore.Workspace.ImageSize`) are parameters, gathered in `Geometry`. The only
  requirement is a non-empty allocation, because the source divides integers by
  `Allocation.Width` and `Allocation.Height`. The image size may be zero.
- The scale `ImageSize.X / Allocation.Width` is a division of two ints, so it is
  rounded down. `Transform.Scale` states this.
- `PositionToClientPt` divides an int by a double holding that scale. The model
  computes it in `real`. A zero scale gives an infinity or a NaN in the source, and
  `Coord.NonFinite` in the model, so the expose handler needs no extra precondition.
- The source converts the forward product to an int with `(int)`. Pointer
  coordinates are integers in the model, so the product is already an integer and
  the conversion changes nothing.

Both transforms use the same floored integer scale
(Pinta.Gui.Widgets/Widgets/PointPickerGraphic.cs:170-171, 180-181). The forward one
multiplies by it and the inverse one divides by it, so each undoes the other whenever
the scale is non-zero (`Transform.ClientRoundTrip`, `Transform.PositionRoundTrip`).
Because the scale is floored, an image smaller than the widget gives position 0 on
that axis (`Transform.SmallImageCollapses`).

## Model

| member | source | states |
|---|---|---|
| `Transform.Scale` | Pinta.Gui.Widgets/Widgets/PointPickerGraphic.cs:170-171 | the per-axis scale is image size over allocation size rounded down: `s * alloc <= image < (s + 1) * alloc`; it is zero exactly when the image is smaller than the allocation |
| `Transform.AxisToClient` | Pinta.Gui.Widgets/Widgets/PointPickerGraphic.cs:180-184 | the inverse transform on one axis is finite exactly when the scale is non-zero; the result's offset from the centre, times the scale, is then the position |
| `Transform.CentreIsOrigin` | Pinta.Gui.Widgets/Widgets/PointPickerGraphic.cs:163-173 | the pointer at the allocation's centre picks position (0, 0) |
| `Transform.AxisToPosition` | Pinta.Gui.Widgets/Widgets/PointPickerGraphic.cs:167-171 | one axis of the forward transform: the position is positive, negative or zero as the pointer's offset from the centre is, unless the scale is zero, when it is zero |
| `Transform.MousePtToPosition` | Pinta.Gui.Widgets/Widgets/PointPickerGraphic.cs:163-174 | a coordinate of the picked position is zero exactly when the pointer is level with the centre on that axis or the image is smaller than the allocation there; `CentreIsOrigin`, `PositionSign`, `SmallImageCollapses` and the two round trips characterise it further |
| `Transform.PositionToClientPt` | Pinta.Gui.Widgets/Widgets/PointPickerGraphic.cs:176-187 | a coordinate of the crosshair point is finite exactly when the image is at least as large as the allocation on that axis; `OriginIsCentre`, `ClientRoundTrip` and `PositionRoundTrip` tie it to the forward transform |
| `Transform.PositionSign` | Pinta.Gui.Widgets/Widgets/PointPickerGraphic.cs:163-173 | on each axis whose image size is at least the allocation's, the picked position has the sign of the pointer's offset from the centre |
| `Transform.SmallImageCollapses` | Pinta.Gui.Widgets/Widgets/PointPickerGraphic.cs:170-171 | on an axis where the image is smaller than the allocation, every pointer picks 0 |
| `Transform.ClientRoundTrip` | Pinta.Gui.Widgets/Widgets/PointPickerGraphic.cs:163-187 | with non-zero scales, an integer pointer location mapped to a position and back gives the same location |
| `Transform.OriginIsCentre` | Pinta.Gui.Widgets/Widgets/PointPickerGraphic.cs:176-187 | position (0, 0) is drawn at the centre on every axis with a non-zero scale, and at a non-finite coordinate on an axis whose scale is zero |
| `Transform.PositionRoundTrip` | Pinta.Gui.Widgets/Widgets/PointPickerGraphic.cs:163-187 | with non-zero scales, a position is picked by some integer pointer exactly when each coordinate is a multiple of its scale; that pointer is the point the inverse transform gives, and it picks the position back |
| `PointPicker.Step` | Pinta.Gui.Widgets/Widgets/PointPickerGraphic.cs:64-147 | the effect of one handler: only button events change tracking, only motion, release and the setter change the position, and only size requests, size allocations and exposes change the thumbnail; the `Gestures` lemmas give each case exactly |
| `PointPicker.WithPosition` | Pinta.Gui.Widgets/Widgets/PointPickerGraphic.cs:74-83 | the setter always leaves the new value stored; the state is unchanged exactly when the value equals the current one; a notification is raised exactly when it differs, and at most one; tracking and the thumbnail are untouched |
| `PointPicker.PointPickerGraphic.constructor` | Pinta.Gui.Widgets/Widgets/PointPickerGraphic.cs:36-46 | a new widget is not tracking, is at position (0, 0), has raised nothing and has no thumbnail |
| `PointPicker.PointPickerGraphic.OnPositionChange` | Pinta.Gui.Widgets/Widgets/PointPickerGraphic.cs:154-159 | raising the event adds one to the notification count and changes nothing else |
| `PointPicker.PointPickerGraphic.SetPosition` | Pinta.Gui.Widgets/Widgets/PointPickerGraphic.cs:76-82 | the in-place setter leaves the state that `WithPosition` describes |
| `PointPicker.PointPickerGraphic.OnMotionNotify` | Pinta.Gui.Widgets/Widgets/PointPickerGraphic.cs:87-92 | the motion handler leaves the state that `Step` gives for a motion event |
| `PointPicker.PointPickerGraphic.OnButtonRelease` | Pinta.Gui.Widgets/Widgets/PointPickerGraphic.cs:94-103 | the release handler leaves the state that `Step` gives for a release event |
| `PointPicker.PointPickerGraphic.OnButtonPress` | Pinta.Gui.Widgets/Widgets/PointPickerGraphic.cs:105-111 | the press handler leaves the state that `Step` gives for a press event |
| `PointPicker.PointPickerGraphic.UpdateThumbnail` | Pinta.Gui.Widgets/Widgets/PointPickerGraphic.cs:48-62 | afterwards the thumbnail is present with the allocation's width and height; nothing else changes |
| `PointPicker.PointPickerGraphic.OnSizeAllocated` | Pinta.Gui.Widgets/Widgets/PointPickerGraphic.cs:64-68 | the allocation handler leaves the state that `Step` gives for a size allocation |
| `PointPicker.PointPickerGraphic.OnSizeRequested` | Pinta.Gui.Widgets/Widgets/PointPickerGraphic.cs:142-148 | the widget always asks for 50 by 50, and the state is the one `Step` gives for a size request |
| `PointPicker.PointPickerGraphic.OnExpose` | Pinta.Gui.Widgets/Widgets/PointPickerGraphic.cs:115-123 | an expose is always handled; the crosshair is drawn at the inverse transform of the current position; the state is the one `Step` gives for an expose |
| `Gestures.ButtonPressEffect` | Pinta.Gui.Widgets/Widgets/PointPickerGraphic.cs:105-111 | a left-button press sets tracking; any other press leaves it as it was; no press changes the position, the notifications or the thumbnail |
| `Gestures.MotionEffect` | Pinta.Gui.Widgets/Widgets/PointPickerGraphic.cs:87-92 | motion while not tracking changes nothing; motion while tracking moves the position to the forward transform of the pointer and keeps tracking |
| `Gestures.ButtonReleaseEffect` | Pinta.Gui.Widgets/Widgets/PointPickerGraphic.cs:94-103 | a release while not tracking changes nothing; a release while tracking always ends tracking; only a left-button release also moves the position, to the forward transform of the release point |
| `Gestures.SizeRequestEffect` | Pinta.Gui.Widgets/Widgets/PointPickerGraphic.cs:142-148 | after a size request the thumbnail is absent, and nothing else has changed |
| `Gestures.SizeAllocateEffect` | Pinta.Gui.Widgets/Widgets/PointPickerGraphic.cs:64-68 | after a size allocation the thumbnail is present with the allocated width and height, and nothing else has changed |
| `Gestures.ExposeEffect` | Pinta.Gui.Widgets/Widgets/PointPickerGraphic.cs:119-120 | after an expose the thumbnail is present; one already present is not rebuilt; a missing one is built at the allocation's size |
| `Gestures.StepNotifiesOnChange` | Pinta.Gui.Widgets/Widgets/PointPickerGraphic.cs:76-82 | every event raises `PositionChanged` once if it changed the position and not at all otherwise |
| `Gestures.TrackingAfterTrace` | Pinta.Gui.Widgets/Widgets/PointPickerGraphic.cs:94-111 | after any sequence of events the widget is tracking exactly when some left-button press has no release after it, or when it was tracking before and no release came |
| `Gestures.NotificationsTrackChanges` | Pinta.Gui.Widgets/Widgets/PointPickerGraphic.cs:74-92 | over any sequence of events the notification count never falls and grows by at most one per event, and it grows whenever the position ends up different |
| `Gestures.ThumbnailUntouched` | Pinta.Gui.Widgets/Widgets/PointPickerGraphic.cs:87-111 | mouse events and position changes never touch the thumbnail |
| `Gestures.ThumbnailAfterResize` | Pinta.Gui.Widgets/Widgets/PointPickerGraphic.cs:64-68 | after a size request, the next expose builds the thumbnail at the allocation's size, whatever mouse events come between; after a size allocation, the thumbnail has the allocated size and the next expose keeps it |
| `Gestures.ThumbnailMatchesAllocation` | Pinta.Gui.Widgets/Widgets/PointPickerGraphic.cs:48-68 | while every event carries the same allocation, a thumbnail that is absent or of that size stays absent or of that size, and after an expose it is present at that size |
| `Gestures.DragGesture` | Pinta.Gui.Widgets/Widgets/PointPickerGraphic.cs:87-111 | a left drag (press, move to p2, release at p3) ends not tracking, at the forward transform of p3; it raises one notification for each of the two updates that moved the position, and the press point plays no part |
| `Gestures.CancelledGesture` | Pinta.Gui.Widgets/Widgets/PointPickerGraphic.cs:94-111 | a left press followed by the release of another button ends tracking and changes nothing else |
| `Gestures.ExampleClick` | Pinta.Gui.Widgets/Widgets/PointPickerGraphic.cs:163-173 | with a 100 by 100 allocation centred at (50, 50) over a 200 by 200 image, a click at (75, 50) picks (50, 0) |

## Left out

- Cairo drawing in the expose handler is not modelled: the blit of the thumbnail, the border rectangle, the crosshair lines and the marker ellipse. The model keeps only the point where the crosshair is drawn.
- The thumbnail's contents are not modelled: the double scale factors, and painting each layer with its offset and opacity. Only whether the thumbnail is present, and its size, is kept.
- The redraw request `GdkWindow.Invalidate()` after a position change is not modelled, nor are the event mask and the handler wiring in the constructor.
- `PointPicker.PointPickerGraphic.SetPosition` does not model the exception path of `GdkWindow.Invalidate()` (line 80): before the widget is realized its window is null, so setting a different value throws a null-reference exception after the value is stored and `PositionChanged` is raised. The model ends in that same state and does not report the throw.
- The widget's `Allocation`, which `base.OnSizeAllocated` stores (line 66) and `UpdateThumbnail` and both transforms read, is not a field of the model. Each event carries its allocation instead, so the model also admits sequences in which consecutive events carry different allocations, which the toolkit does not produce between two size allocations. `Gestures.ThumbnailMatchesAllocation` covers the sequences with one allocation. The call to the base class's expose handler (line 117) is not modelled.
- `PositionChanged` is counted each time the widget raises it. Whether anyone is subscribed, and what the subscribers do, is outside the widget.
- `Allocation.Center()` and the workspace's image size and layer list are parameters. Their definitions are not part of this model.
- Pointer coordinates are integers in the model, while the toolkit delivers doubles. Truncating a non-integral product with `(int)` is therefore not modelled.
- `Transform.AxisToClient` computes in exact real arithmetic. It does not model double rounding, or the difference between the infinity and the NaN a zero scale gives; both are `NonFinite`.
- Integers are unbounded. The model does not capture 32-bit overflow of a position, or a `(int)` conversion of an out-of-range double.
