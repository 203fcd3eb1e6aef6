/**
  The uinput driver in its own form: an object whose fields the pointer events
  update, proved against the specifications its runs are studied with.
*/
module UinputDevice {
  import opened Prelude
  import opened Evdev
  import T = UinputTouch
  import P = UinputPen

  datatype PointerType = Touch | Pen | Mouse

  class UInputDevice {
    var touches: array<Option<int>>
    var toolPenActive: bool
    var penTouching: bool
    var lastPenEvent: nat
    var touchOut: seq<Event>   // everything emitted on the touch device
    var stylusOut: seq<Event>  // everything emitted on the stylus

    ghost predicate Valid()
      reads this
    {
      touches.Length == T.SLOTS
    }

    ghost function Table(): T.Table
      reads this, touches
      requires Valid()
    {
      touches[..]
    }

    ghost function PenState(): P.Pen
      reads this
    {
      P.Pen(toolPenActive, penTouching, lastPenEvent)
    }

    constructor (now: nat)
      ensures Valid() && fresh(touches)
      ensures Table() == T.EMPTY && PenState() == P.Pen(false, false, now)
      ensures touchOut == [] && stylusOut == []
    {
      touches := new Option<int>[T.SLOTS](_ => None);
      toolPenActive, penTouching, lastPenEvent := false, false, now;
      touchOut, stylusOut := [], [];
    }

    /** First slot holding `entry`: a pointer's own slot, or a free one for `None`. */
    method FindSlot(entry: Option<int>) returns (slot: Option<nat>)
      requires Valid()
      ensures slot == T.SlotOf(Table(), entry, 0)
    {
      var i := 0;
      while i < touches.Length
        invariant 0 <= i <= touches.Length
        invariant T.SlotOf(Table(), entry, 0) == T.SlotOf(Table(), entry, i)
      {
        if touches[i] == entry {
          return Some(i);
        }
        i := i + 1;
      }
      return None;
    }

    method ActiveCount() returns (n: nat)
      requires Valid()
      ensures n == T.Count(Table())
    {
      n := 0;
      var i := 0;
      assert touches[0..] == touches[..];
      while i < touches.Length
        invariant 0 <= i <= touches.Length
        invariant n + T.Count(touches[i..]) == T.Count(Table())
      {
        assert touches[i..][1..] == touches[i + 1..];
        if touches[i].Some? {
          n := n + 1;
        }
        i := i + 1;
      }
      assert touches[i..] == [];
    }

    method ClearStalePenHover(now: nat)
      modifies this`toolPenActive, this`stylusOut
      ensures PenState() == P.ClearedPen(old(PenState()), now)
      ensures stylusOut == old(stylusOut) + P.ClearEvents(old(PenState()), now)
    {
      if toolPenActive && !penTouching && now - lastPenEvent > P.STALE_HOVER {
        toolPenActive := false;
        stylusOut := stylusOut + (P.RELEASE_KEYS + [Abs(ABS_PRESSURE, 0)]);
      }
    }

    method SendTouchContact(e: PointerEvent, g: Rect)
      requires Valid() && Contact(e.kind)
      modifies this`touchOut, touches
      ensures Table() == T.NextTable(old(Table()), T.Input(e, Some(g)))
      ensures touchOut == old(touchOut) + T.Emitted(old(Table()), T.Input(e, Some(g)))
    {
      var slot := FindSlot(Some(e.id));
      if slot.None? {
        slot := FindSlot(None);
        if slot.None? {
          return;
        }
      }
      touches[slot.value] := Some(e.id);
      ghost var all := T.NextTable(old(Table()), T.Input(e, Some(g)));
      assert Table() == all;
      var events := T.SelectSlot(slot.value, slot.value);
      if e.kind.Down? {
        var count := ActiveCount();
        var keys := [Key(KEY_TOUCH, 1)];
        if count > 1 {
          keys := keys + [Key(T.ToolKey(count - 1), 0)];
        }
        keys := keys + [Key(T.ToolKey(count), 1)];
        assert keys == T.DownKeys(count);
        events := events + keys;
      }
      events := events + T.ContactShape(T.ShapeOf(e));
      events := events + T.ContactPosition(Transform(e.x, g.x, g.w), Transform(e.y, g.y, g.h));
      assert events == T.Emitted(old(Table()), T.Input(e, Some(g)));
      touchOut := touchOut + events;
    }

    method SendTouchRelease(e: PointerEvent, g: Rect)
      requires Valid() && !Contact(e.kind)
      modifies this`touchOut, touches
      ensures Table() == T.NextTable(old(Table()), T.Input(e, Some(g)))
      ensures touchOut == old(touchOut) + T.Emitted(old(Table()), T.Input(e, Some(g)))
    {
      var slot := FindSlot(Some(e.id));
      if slot.Some? {
        var count := ActiveCount();
        var keys := [Key(KEY_TOUCH, 0), Key(T.ToolKey(count), 0)];
        if count > 1 {
          keys := keys + [Key(T.ToolKey(count - 1), 1)];
        }
        touchOut := touchOut + (T.SelectSlot(slot.value, -1) + keys);
        touches[slot.value] := None;
      }
    }

    method SendPen(e: PointerEvent, g: Rect, now: nat)
      modifies this`toolPenActive, this`penTouching, this`lastPenEvent, this`stylusOut
      ensures PenState() == P.PenAfter(old(PenState()), e, now)
      ensures stylusOut == old(stylusOut) + P.PenEvents(old(PenState()), e, g)
    {
      ghost var p := PenState();
      lastPenEvent := now;
      if Contact(e.kind) {
        var events := [];
        if e.kind.Down? {
          penTouching := true;
          events := events + [Key(KEY_TOUCH, 1)];
        }
        if !toolPenActive && !e.eraserHeld {
          events := events + [Key(KEY_TOOL_PEN, 1), Key(KEY_TOOL_RUBBER, 0)];
          toolPenActive := true;
        }
        if e.eraser {
          events := events + [Key(KEY_TOOL_PEN, 0), Key(KEY_TOOL_RUBBER, 1)];
          toolPenActive := false;
        }
        assert events == P.ToolEvents(p, e);
        var pressure := if penTouching then TransformPressure(e.pressure) else 0;
        events := events +
          [ Abs(ABS_X, Transform(e.x, g.x, g.w)), Abs(ABS_Y, Transform(e.y, g.y, g.h)), Abs(ABS_PRESSURE, pressure) ];
        events := events +
          [ Abs(ABS_TILT_X, e.tiltX), Abs(ABS_TILT_Y, e.tiltY), Abs(ABS_DISTANCE, P.HoverDistance(e.pressure)) ];
        stylusOut := stylusOut + events;
      } else {
        stylusOut := stylusOut + (P.RELEASE_KEYS + [Abs(ABS_PRESSURE, 0)] + [Abs(ABS_DISTANCE, ABS_MAXVAL)]);
        toolPenActive := false;
        penTouching := false;
      }
    }

    method SendTouch(e: PointerEvent, g: Rect)
      requires Valid()
      modifies this`touchOut, touches
      ensures Table() == T.NextTable(old(Table()), T.Input(e, Some(g)))
      ensures touchOut == old(touchOut) + T.Emitted(old(Table()), T.Input(e, Some(g)))
    {
      if Contact(e.kind) {
        SendTouchContact(e, g);
      } else {
        SendTouchRelease(e, g);
      }
    }

    /** What the stylus gets out of a pointer event: the stale hover first, then the pen's own part. */
    method SendStylus(e: PointerEvent, pen: bool, now: nat, g: Rect)
      modifies this`toolPenActive, this`penTouching, this`lastPenEvent, this`stylusOut
      ensures PenState() == P.NextPen(old(PenState()), P.Input(e, pen, now, Some(g)))
      ensures stylusOut == old(stylusOut) + P.Emitted(old(PenState()), P.Input(e, pen, now, Some(g)))
    {
      ClearStalePenHover(now);
      if pen {
        SendPen(e, g, now);
      }
    }

    /** `geometry` is missing when the capturable refuses input; then nothing happens at all. */
    method SendPointerEvent(e: PointerEvent, pointer: PointerType, now: nat, geometry: Option<Rect>)
      requires Valid()
      modifies this, touches
      ensures Valid() && touches == old(touches)
      ensures pointer.Touch? ==>
                && Table() == T.NextTable(old(Table()), T.Input(e, geometry))
                && touchOut == old(touchOut) + T.Emitted(old(Table()), T.Input(e, geometry))
      ensures !pointer.Touch? ==> Table() == old(Table()) && touchOut == old(touchOut)
      ensures PenState() == P.NextPen(old(PenState()), P.Input(e, pointer.Pen?, now, geometry))
      ensures stylusOut == old(stylusOut) + P.Emitted(old(PenState()), P.Input(e, pointer.Pen?, now, geometry))
    {
      if geometry.None? {
        return;
      }
      SendStylus(e, pointer.Pen?, now, geometry.value);
      if pointer.Touch? {
        SendTouch(e, geometry.value);
      }
    }
  }
}
