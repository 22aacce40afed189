/** What the point picker's handlers guarantee, one event at a time and
    over whole sequences of events: drag gestures, change notification and
    the thumbnail cache. */
module Gestures {
  import opened Transform
  import opened PointPicker

  // ---- One event at a time ----

  /** A left-button press starts tracking; any other press leaves it as it
      was. No press moves the position. */
  lemma ButtonPressEffect(w: Widget, button: nat)
    ensures var w' := Step(w, ButtonPress(button));
      w'.tracking == (button == LeftButton || w.tracking)
      && w'.position == w.position && w'.notifications == w.notifications
      && w'.thumbnail == w.thumbnail
  {
  }

  /** Motion does nothing unless tracking; while tracking, it moves the
      position to the one the pointer picks and keeps tracking. */
  lemma MotionEffect(w: Widget, at: Point, g: Geometry)
    requires ValidGeometry(g)
    ensures !w.tracking ==> Step(w, MotionNotify(at, g)) == w
    ensures w.tracking ==>
      var w' := Step(w, MotionNotify(at, g));
      w'.tracking && w'.position == MousePtToPosition(at, g) && w'.thumbnail == w.thumbnail
  {
  }

  /** A release does nothing unless tracking. While tracking, every release
      ends the gesture, and only a left-button release also moves the
      position to the one the release point picks. */
  lemma ButtonReleaseEffect(w: Widget, button: nat, at: Point, g: Geometry)
    requires ValidGeometry(g)
    ensures !w.tracking ==> Step(w, ButtonRelease(button, at, g)) == w
    ensures w.tracking ==>
      var w' := Step(w, ButtonRelease(button, at, g));
      !w'.tracking && w'.thumbnail == w.thumbnail
      && w'.position == (if button == LeftButton then MousePtToPosition(at, g) else w.position)
  {
  }

  /** A size request drops the thumbnail and changes nothing else. */
  lemma SizeRequestEffect(w: Widget)
    ensures Step(w, SizeRequest).thumbnail == None
    ensures Step(w, SizeRequest) == w.(thumbnail := None)
  {
  }

  /** A size allocation rebuilds the thumbnail at the allocated size and
      changes nothing else. */
  lemma SizeAllocateEffect(w: Widget, alloc: Size)
    ensures Step(w, SizeAllocate(alloc)).thumbnail == Some(alloc)
    ensures Step(w, SizeAllocate(alloc)) == w.(thumbnail := Some(alloc))
  {
  }

  /** After an expose there is a thumbnail: the one already there, or a new
      one at the allocated size. Nothing else changes. */
  lemma ExposeEffect(w: Widget, g: Geometry)
    requires ValidGeometry(g)
    ensures Step(w, Expose(g)).thumbnail.Some?
    ensures w.thumbnail.Some? ==> Step(w, Expose(g)) == w
    ensures w.thumbnail == None ==> Step(w, Expose(g)) == w.(thumbnail := Some(g.alloc))
  {
  }

  /** Every event raises PositionChanged once if it changed the position and
      not at all otherwise. */
  lemma StepNotifiesOnChange(w: Widget, e: Event)
    requires EventValid(e)
    ensures Step(w, e).notifications
         == w.notifications + (if Step(w, e).position != w.position then 1 else 0)
  {
  }

  // ---- Sequences of events ----

  lemma {:induction false} AllValidPrefix(evs: seq<Event>, n: nat)
    requires AllValid(evs) && n <= |evs|
    ensures AllValid(evs[..n])
  {
    forall e | e in evs[..n] ensures EventValid(e) {
      assert e in evs;
    }
  }

  /** Running two sequences one after the other is running their
      concatenation. */
  lemma {:induction false} RunAppend(w: Widget, a: seq<Event>, b: seq<Event>)
    requires AllValid(a) && AllValid(b)
    ensures AllValid(a + b)
    ensures Run(w, a + b) == Run(Run(w, a), b)
    decreases |b|
  {
    assert AllValid(a + b) by {
      forall e | e in a + b ensures EventValid(e) {
        assert e in a || e in b;
      }
    }
    if b == [] {
      assert a + b == a;
    } else {
      var b' := b[..|b| - 1];
      AllValidPrefix(b, |b| - 1);
      RunAppend(w, a, b');
      assert (a + b)[..|a + b| - 1] == a + b';
    }
  }

  predicate IsLeftPress(e: Event)
  {
    e.ButtonPress? && e.button == LeftButton
  }

  predicate NoRelease(evs: seq<Event>)
  {
    forall e <- evs :: !e.ButtonRelease?
  }

  /** Some left-button press in `evs` has no release after it. */
  predicate PressHeld(evs: seq<Event>)
  {
    exists i :: 0 <= i < |evs| && IsLeftPress(evs[i]) && NoRelease(evs[i + 1..])
  }

  /** The widget is tracking after a sequence of events exactly when a
      left-button press came with no release after it, or when it was
      tracking before and no release came at all. */
  lemma {:induction false} TrackingAfterTrace(w: Widget, evs: seq<Event>)
    requires AllValid(evs)
    ensures Run(w, evs).tracking <==> PressHeld(evs) || (w.tracking && NoRelease(evs))
    decreases |evs|
  {
    if evs != [] {
      var n := |evs| - 1;
      var pre, e := evs[..n], evs[n];
      AllValidPrefix(evs, n);
      TrackingAfterTrace(w, pre);
      assert evs == pre + [e];
      PressHeldSnoc(pre, e);
      if !e.ButtonRelease? {
        NoReleaseSnoc(pre, e);
      } else {
        assert e in evs;
      }
    }
  }

  /** How one more event changes PressHeld: a left press makes it hold, a
      release makes it fail, anything else leaves it as it was. */
  lemma PressHeldSnoc(pre: seq<Event>, e: Event)
    ensures IsLeftPress(e) ==> PressHeld(pre + [e])
    ensures e.ButtonRelease? ==> !PressHeld(pre + [e])
    ensures !IsLeftPress(e) && !e.ButtonRelease? ==> (PressHeld(pre + [e]) <==> PressHeld(pre))
  {
    if IsLeftPress(e) {
      PressHeldAfterPress(pre, e);
    } else if e.ButtonRelease? {
      PressHeldAfterRelease(pre, e);
    } else {
      PressHeldAfterOther(pre, e);
    }
  }

  lemma PressHeldAfterPress(pre: seq<Event>, e: Event)
    requires IsLeftPress(e)
    ensures PressHeld(pre + [e])
  {
    var evs, n := pre + [e], |pre|;
    assert evs[n + 1..] == [];
    assert IsLeftPress(evs[n]) && NoRelease(evs[n + 1..]);
  }

  lemma PressHeldAfterRelease(pre: seq<Event>, e: Event)
    requires e.ButtonRelease?
    ensures !PressHeld(pre + [e])
  {
    var evs, n := pre + [e], |pre|;
    forall i | 0 <= i < |evs| && IsLeftPress(evs[i]) ensures !NoRelease(evs[i + 1..]) {
      assert evs[i + 1..][n - i - 1] == e;
    }
  }

  lemma PressHeldAfterOther(pre: seq<Event>, e: Event)
    requires !IsLeftPress(e) && !e.ButtonRelease?
    ensures PressHeld(pre + [e]) <==> PressHeld(pre)
  {
    var evs, n := pre + [e], |pre|;
    if PressHeld(evs) {
      var i :| 0 <= i < |evs| && IsLeftPress(evs[i]) && NoRelease(evs[i + 1..]);
      assert i < n && pre[i] == evs[i];
      assert evs[i + 1..] == pre[i + 1..] + [e];
      NoReleaseSnoc(pre[i + 1..], e);
    }
    if PressHeld(pre) {
      var i :| 0 <= i < |pre| && IsLeftPress(pre[i]) && NoRelease(pre[i + 1..]);
      assert evs[i] == pre[i];
      assert evs[i + 1..] == pre[i + 1..] + [e];
      NoReleaseSnoc(pre[i + 1..], e);
    }
  }

  lemma NoReleaseSnoc(s: seq<Event>, e: Event)
    requires !e.ButtonRelease?
    ensures NoRelease(s + [e]) <==> NoRelease(s)
  {
    assert forall x :: x in s + [e] <==> x in s || x == e;
  }

  /** PositionChanged is never raised more than once per event, and is
      raised at least once whenever a sequence of events moves the
      position. */
  lemma {:induction false} NotificationsTrackChanges(w: Widget, evs: seq<Event>)
    requires AllValid(evs)
    ensures w.notifications <= Run(w, evs).notifications <= w.notifications + |evs|
    ensures Run(w, evs).position != w.position ==> Run(w, evs).notifications > w.notifications
    decreases |evs|
  {
    if evs != [] {
      var n := |evs| - 1;
      AllValidPrefix(evs, n);
      NotificationsTrackChanges(w, evs[..n]);
      StepNotifiesOnChange(Run(w, evs[..n]), evs[n]);
    }
  }

  /** The events that leave the thumbnail alone: mouse events and setting
      the position. */
  predicate KeepsThumbnail(e: Event)
  {
    !e.SizeRequest? && !e.SizeAllocate? && !e.Expose?
  }

  lemma {:induction false} ThumbnailUntouched(w: Widget, evs: seq<Event>)
    requires AllValid(evs)
    requires forall e <- evs :: KeepsThumbnail(e)
    ensures Run(w, evs).thumbnail == w.thumbnail
    decreases |evs|
  {
    if evs != [] {
      var n := |evs| - 1;
      AllValidPrefix(evs, n);
      assert evs[n] in evs;
      ThumbnailUntouched(w, evs[..n]);
    }
  }

  /** After a size request, the next expose rebuilds the thumbnail at the
      allocated size, whatever mouse events come between. After a size
      allocation, the thumbnail has the allocated size, and the next expose
      keeps it. */
  lemma {:induction false} ThumbnailAfterResize(w: Widget, mid: seq<Event>, alloc: Size, g: Geometry)
    requires AllValid(mid) && ValidGeometry(g)
    requires forall e <- mid :: KeepsThumbnail(e)
    ensures AllValid([SizeRequest] + mid + [Expose(g)])
    ensures Run(w, [SizeRequest] + mid + [Expose(g)]).thumbnail == Some(g.alloc)
    ensures AllValid([SizeAllocate(alloc)] + mid + [Expose(g)])
    ensures Run(w, [SizeAllocate(alloc)] + mid + [Expose(g)]).thumbnail == Some(alloc)
  {
    var request, allocate, expose := [SizeRequest], [SizeAllocate(alloc)], [Expose(g)];
    assert AllValid(request) && AllValid(allocate) && AllValid(expose);
    RunAppend(w, request, mid);
    RunAppend(w, request + mid, expose);
    assert Run(w, request) == Step(w, SizeRequest) by { assert request[..0] == []; }
    ThumbnailUntouched(Run(w, request), mid);
    assert Run(Run(w, request + mid), expose) == Step(Run(w, request + mid), Expose(g)) by {
      assert expose[..0] == [];
    }
    RunAppend(w, allocate, mid);
    RunAppend(w, allocate + mid, expose);
    assert Run(w, allocate) == Step(w, SizeAllocate(alloc)) by { assert allocate[..0] == []; }
    ThumbnailUntouched(Run(w, allocate), mid);
    assert Run(Run(w, allocate + mid), expose) == Step(Run(w, allocate + mid), Expose(g)) by {
      assert expose[..0] == [];
    }
  }

  /** The allocation that an event carries, if any, is `a`. */
  predicate UsesAllocation(e: Event, a: Size)
  {
    match e
    case ButtonRelease(_, _, g) => g.alloc == a
    case MotionNotify(_, g) => g.alloc == a
    case SizeAllocate(b) => b == a
    case Expose(g) => g.alloc == a
    case _ => true
  }

  /** While the allocation stays `a`, a thumbnail that is absent or of size
      `a` stays absent or of size `a`, and after an expose it is present at
      size `a`. */
  lemma {:induction false} ThumbnailMatchesAllocation(w: Widget, evs: seq<Event>, a: Size)
    requires AllValid(evs)
    requires forall e <- evs :: UsesAllocation(e, a)
    requires w.thumbnail == None || w.thumbnail == Some(a)
    ensures Run(w, evs).thumbnail == None || Run(w, evs).thumbnail == Some(a)
    ensures evs != [] && evs[|evs| - 1].Expose? ==> Run(w, evs).thumbnail == Some(a)
    decreases |evs|
  {
    if evs != [] {
      var n := |evs| - 1;
      AllValidPrefix(evs, n);
      assert evs[n] in evs;
      forall e | e in evs[..n] ensures UsesAllocation(e, a) {
        assert e in evs;
      }
      ThumbnailMatchesAllocation(w, evs[..n], a);
    }
  }

  /** A left-button drag: press, move to p2, release at p3. The position is
      set from p2 and then from p3 (the press point plays no part), each
      raising PositionChanged if it moved, and the gesture ends. */
  lemma DragGesture(w: Widget, p2: Point, p3: Point, g: Geometry)
    requires ValidGeometry(g)
    ensures var evs := [ButtonPress(LeftButton), MotionNotify(p2, g), ButtonRelease(LeftButton, p3, g)];
      AllValid(evs) &&
      var w' := Run(w, evs);
      !w'.tracking && w'.position == MousePtToPosition(p3, g) && w'.thumbnail == w.thumbnail
      && w'.notifications == w.notifications
           + (if MousePtToPosition(p2, g) != w.position then 1 else 0)
           + (if MousePtToPosition(p3, g) != MousePtToPosition(p2, g) then 1 else 0)
  {
    var e0, e1, e2 := ButtonPress(LeftButton), MotionNotify(p2, g), ButtonRelease(LeftButton, p3, g);
    assert [e0][..0] == [] && [e0, e1][..1] == [e0] && [e0, e1, e2][..2] == [e0, e1];
    assert Run(w, [e0]) == Step(w, e0);
    assert Run(w, [e0, e1]) == Step(Step(w, e0), e1);
    assert Run(w, [e0, e1, e2]) == Step(Step(Step(w, e0), e1), e2);
  }

  /** A left-button press followed by a release of another button ends the
      gesture without moving the position. */
  lemma CancelledGesture(w: Widget, button: nat, at: Point, g: Geometry)
    requires ValidGeometry(g) && button != LeftButton
    ensures var evs := [ButtonPress(LeftButton), ButtonRelease(button, at, g)];
      AllValid(evs) && Run(w, evs) == w.(tracking := false)
  {
    var e0, e1 := ButtonPress(LeftButton), ButtonRelease(button, at, g);
    assert [e0][..0] == [] && [e0, e1][..1] == [e0];
    assert Run(w, [e0]) == Step(w, e0);
    assert Run(w, [e0, e1]) == Step(Step(w, e0), e1);
  }

  /** A 100 by 100 widget centred at (50, 50) over a 200 by 200 image:
      a click at (75, 50) picks (50, 0). */
  lemma ExampleClick()
    ensures MousePtToPosition(Point(75, 50), Geometry(Size(100, 100), Point(50, 50), Size(200, 200)))
         == Point(50, 0)
  {
  }
}
