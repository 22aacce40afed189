/** The state of the point-picker widget and the handlers that change it:
    the change-notifying Position property, the three mouse handlers that
    drive a drag gesture, and the sizing and expose handlers that keep the
    cached thumbnail sized to the allocation. */
module PointPicker {
  import opened Transform

  datatype Option<T> = None | Some(value: T)

  /** The toolkit's number for the left mouse button. */
  const LeftButton: nat := 1

  /** The width and height the widget asks for when it is laid out. */
  const RequestedSide: nat := 50

  /** The widget's state as a value: whether a drag is in progress, the
      picked position, how many times PositionChanged has been raised, and
      the size of the cached thumbnail, if there is one. */
  datatype Widget = Widget(tracking: bool, position: Point, notifications: nat, thumbnail: Option<Size>)

  /** What the toolkit or the host can do to the widget. */
  datatype Event =
    | ButtonPress(button: nat)
    | ButtonRelease(button: nat, at: Point, geom: Geometry)
    | MotionNotify(at: Point, geom: Geometry)
    | SizeRequest
    | SizeAllocate(alloc: Size)
    | Expose(geom: Geometry)
    | PositionSet(value: Point)

  /** The events whose handlers transform coordinates need an allocation
      that is not empty. */
  predicate EventValid(e: Event)
  {
    match e
    case ButtonRelease(_, _, g) => ValidGeometry(g)
    case MotionNotify(_, g) => ValidGeometry(g)
    case Expose(g) => ValidGeometry(g)
    case _ => true
  }

  predicate AllValid(evs: seq<Event>)
  {
    forall e <- evs :: EventValid(e)
  }

  /** The Position setter: a value equal to the current one changes nothing;
      a different one is stored and raises PositionChanged once. */
  function WithPosition(w: Widget, value: Point): (w': Widget)
    ensures w'.position == value
    ensures w' == w <==> value == w.position
    ensures w'.notifications > w.notifications <==> value != w.position
    ensures w'.notifications <= w.notifications + 1
    ensures w'.tracking == w.tracking && w'.thumbnail == w.thumbnail
  {
    if w.position == value then w
    else w.(position := value, notifications := w.notifications + 1)
  }

  /** The effect of one event on the widget's state. Only button events
      change tracking; only motion, release and the setter change the
      position; only sizing and expose events change the thumbnail. */
  function Step(w: Widget, e: Event): (w': Widget)
    requires EventValid(e)
    ensures w'.tracking != w.tracking ==> e.ButtonPress? || e.ButtonRelease?
    ensures w'.position != w.position ==> e.MotionNotify? || e.ButtonRelease? || e.PositionSet?
    ensures w'.thumbnail != w.thumbnail ==> e.SizeRequest? || e.SizeAllocate? || e.Expose?
  {
    match e
    case ButtonPress(b) =>
      if b == LeftButton then w.(tracking := true) else w
    case MotionNotify(at, g) =>
      if w.tracking then WithPosition(w, MousePtToPosition(at, g)) else w
    case ButtonRelease(b, at, g) =>
      if !w.tracking then w
      else
        var w1 := if b == LeftButton then WithPosition(w, MousePtToPosition(at, g)) else w;
        w1.(tracking := false)
    case SizeRequest =>
      w.(thumbnail := None)
    case SizeAllocate(a) =>
      w.(thumbnail := Some(a))
    case Expose(g) =>
      if w.thumbnail == None then w.(thumbnail := Some(g.alloc)) else w
    case PositionSet(v) =>
      WithPosition(w, v)
  }

  /** The state after the events of `evs`, in order, starting from `w`. */
  function Run(w: Widget, evs: seq<Event>): Widget
    requires AllValid(evs)
    decreases |evs|
  {
    if evs == [] then w
    else Step(Run(w, evs[..|evs| - 1]), evs[|evs| - 1])
  }

  /** The widget, with the fields its handlers update in place. */
  class PointPickerGraphic {
    var tracking: bool
    var position: Point
    var notifications: nat
    var thumbnail: Option<Size>

    /** The state of this widget as a value. */
    function State(): Widget
      reads this
    {
      Widget(tracking, position, notifications, thumbnail)
    }

    /** A new widget: not tracking, at position (0, 0), with no thumbnail. */
    constructor ()
      ensures State() == Widget(false, Point(0, 0), 0, None)
    {
      tracking := false;
      position := Point(0, 0);
      notifications := 0;
      thumbnail := None;
    }

    /** Raises PositionChanged. */
    method OnPositionChange()
      modifies this
      ensures State() == old(State()).(notifications := old(notifications) + 1)
    {
      notifications := notifications + 1;
    }

    /** The Position property's setter. */
    method SetPosition(value: Point)
      modifies this
      ensures State() == Step(old(State()), PositionSet(value))
    {
      if position != value {
        position := value;
        OnPositionChange();
      }
    }

    method OnMotionNotify(at: Point, g: Geometry)
      requires ValidGeometry(g)
      modifies this
      ensures State() == Step(old(State()), MotionNotify(at, g))
    {
      if tracking {
        SetPosition(MousePtToPosition(at, g));
      }
    }

    method OnButtonRelease(button: nat, at: Point, g: Geometry)
      requires ValidGeometry(g)
      modifies this
      ensures State() == Step(old(State()), ButtonRelease(button, at, g))
    {
      if tracking {
        if button == LeftButton {
          SetPosition(MousePtToPosition(at, g));
        }
        tracking := false;
      }
    }

    method OnButtonPress(button: nat)
      modifies this
      ensures State() == Step(old(State()), ButtonPress(button))
    {
      if button == LeftButton {
        tracking := true;
      }
    }

    /** Rebuilds the thumbnail at the size of the allocation. */
    method UpdateThumbnail(alloc: Size)
      modifies this
      ensures State() == old(State()).(thumbnail := Some(alloc))
    {
      thumbnail := Some(alloc);
    }

    method OnSizeAllocated(alloc: Size)
      modifies this
      ensures State() == Step(old(State()), SizeAllocate(alloc))
    {
      UpdateThumbnail(alloc);
    }

    /** Asks for a 50 by 50 widget and drops the thumbnail. */
    method OnSizeRequested() returns (requisition: Size)
      modifies this
      ensures requisition == Size(RequestedSide, RequestedSide)
      ensures State() == Step(old(State()), SizeRequest)
    {
      requisition := Size(RequestedSide, RequestedSide);
      thumbnail := None;
    }

    /** Rebuilds a missing thumbnail, and reports the point where the
        crosshair for the current position is drawn. */
    method OnExpose(g: Geometry) returns (handled: bool, crosshair: ClientPoint)
      requires ValidGeometry(g)
      modifies this
      ensures handled
      ensures crosshair == PositionToClientPt(position, g)
      ensures State() == Step(old(State()), Expose(g))
    {
      if thumbnail == None {
        UpdateThumbnail(g.alloc);
      }
      crosshair := PositionToClientPt(position, g);
      handled := true;
    }
  }
}
