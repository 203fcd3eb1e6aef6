/**
  The pen half of the uinput driver: replaying the stylus events it emits gives
  a stylus whose keys and pressure are what the driver believes.
*/
module UinputPen {
  import opened Prelude
  import opened Evdev

  const STALE_HOVER := 50_000_000  // nanoseconds

  /** The driver's variables; `last` is the time of the last pen event. */
  datatype Pen = Pen(active: bool, touching: bool, last: nat)

  /** A pointer event of any kind: `pen` tells whether it is for the stylus. */
  datatype Input = Input(event: PointerEvent, pen: bool, now: nat, geometry: Option<Rect>)

  predicate Stale(p: Pen, now: nat) {
    p.active && !p.touching && now - p.last > STALE_HOVER
  }

  const RELEASE_KEYS := [Key(KEY_TOUCH, 0), Key(KEY_TOOL_PEN, 0), Key(KEY_TOOL_RUBBER, 0)]

  function ClearedPen(p: Pen, now: nat): Pen {
    if Stale(p, now) then p.(active := false) else p
  }

  function ClearEvents(p: Pen, now: nat): seq<Event> {
    if Stale(p, now) then RELEASE_KEYS + [Abs(ABS_PRESSURE, 0)] else []
  }

  /** The pen tool is put down on this event. */
  predicate ShowsPen(p: Pen, e: PointerEvent) {
    !p.active && !e.eraserHeld
  }

  function PenAfter(p: Pen, e: PointerEvent, now: nat): Pen {
    if Contact(e.kind)
    then Pen((p.active || ShowsPen(p, e)) && !e.eraser, p.touching || e.kind.Down?, now)
    else Pen(false, false, now)
  }

  function HoverDistance(pressure: real): (d: int)
    ensures d == 0 || d == ABS_MAXVAL
    ensures d == 0 <==> pressure > 0.0
  {
    if pressure > 0.0 then 0 else ABS_MAXVAL
  }

  function ToolEvents(p: Pen, e: PointerEvent): seq<Event> {
    (if e.kind.Down? then [Key(KEY_TOUCH, 1)] else []) +
    (if ShowsPen(p, e) then [Key(KEY_TOOL_PEN, 1), Key(KEY_TOOL_RUBBER, 0)] else []) +
    (if e.eraser then [Key(KEY_TOOL_PEN, 0), Key(KEY_TOOL_RUBBER, 1)] else [])
  }

  function PenPressure(p: Pen, e: PointerEvent): int {
    if p.touching || e.kind.Down? then TransformPressure(e.pressure) else 0
  }

  function PenEvents(p: Pen, e: PointerEvent, g: Rect): seq<Event> {
    if Contact(e.kind) then
      ToolEvents(p, e) +
      [ Abs(ABS_X, Transform(e.x, g.x, g.w)), Abs(ABS_Y, Transform(e.y, g.y, g.h)),
        Abs(ABS_PRESSURE, PenPressure(p, e)) ] +
      [ Abs(ABS_TILT_X, e.tiltX), Abs(ABS_TILT_Y, e.tiltY), Abs(ABS_DISTANCE, HoverDistance(e.pressure)) ]
    else
      RELEASE_KEYS + [Abs(ABS_PRESSURE, 0)] + [Abs(ABS_DISTANCE, ABS_MAXVAL)]
  }

  function NextPen(p: Pen, i: Input): Pen {
    if i.geometry.None? then p
    else
      var q := ClearedPen(p, i.now);
      if i.pen then PenAfter(q, i.event, i.now) else q
  }

  function Emitted(p: Pen, i: Input): seq<Event> {
    if i.geometry.None? then []
    else
      ClearEvents(p, i.now) +
      if i.pen then PenEvents(ClearedPen(p, i.now), i.event, i.geometry.value) else []
  }

  // -------------------------------------------------------------------------
  // The stylus the events are written to
  // -------------------------------------------------------------------------

  datatype Stylus = Stylus(
    pen: bool, rubber: bool, touch: bool, x: int, y: int, pressure: int, tiltX: int, tiltY: int, distance: int)

  function Receive(d: Stylus, e: Event): Stylus {
    match e
    case Key(code, value) =>
      if code == KEY_TOOL_PEN then d.(pen := value != 0)
      else if code == KEY_TOOL_RUBBER then d.(rubber := value != 0)
      else if code == KEY_TOUCH then d.(touch := value != 0)
      else d
    case Abs(code, value) =>
      if code == ABS_X then d.(x := value)
      else if code == ABS_Y then d.(y := value)
      else if code == ABS_PRESSURE then d.(pressure := value)
      else if code == ABS_TILT_X then d.(tiltX := value)
      else if code == ABS_TILT_Y then d.(tiltY := value)
      else if code == ABS_DISTANCE then d.(distance := value)
      else d
  }

  function ReceiveAll(d: Stylus, es: seq<Event>): Stylus
    decreases |es|
  {
    if es == [] then d else ReceiveAll(Receive(d, es[0]), es[1..])
  }

  lemma {:induction false} ReceiveBoth(d: Stylus, a: seq<Event>, b: seq<Event>)
    ensures ReceiveAll(d, a + b) == ReceiveAll(ReceiveAll(d, a), b)
    decreases |a|
  {
    if a == [] {
      assert a + b == b;
    } else {
      assert (a + b)[0] == a[0] && (a + b)[1..] == a[1..] + b;
      ReceiveBoth(Receive(d, a[0]), a[1..], b);
    }
  }

  lemma {:induction false} ReceiveOne(d: Stylus, a: Event)
    ensures ReceiveAll(d, [a]) == Receive(d, a)
  {
    assert [a][1..] == [];
  }

  lemma {:induction false} ReceiveTwo(d: Stylus, a: Event, b: Event)
    ensures ReceiveAll(d, [a, b]) == Receive(Receive(d, a), b)
  {
    assert [a, b][1..] == [b];
    ReceiveOne(Receive(d, a), b);
  }

  lemma {:induction false} ReceiveThree(d: Stylus, a: Event, b: Event, c: Event)
    ensures ReceiveAll(d, [a, b, c]) == Receive(Receive(Receive(d, a), b), c)
  {
    assert [a, b, c][1..] == [b, c];
    ReceiveTwo(Receive(d, a), b, c);
  }

  lemma {:induction false} ReceiveRelease(d: Stylus)
    ensures ReceiveAll(d, RELEASE_KEYS + [Abs(ABS_PRESSURE, 0)]) ==
              d.(touch := false, pen := false, rubber := false, pressure := 0)
  {
    ReceiveBoth(d, RELEASE_KEYS, [Abs(ABS_PRESSURE, 0)]);
    ReceiveThree(d, Key(KEY_TOUCH, 0), Key(KEY_TOOL_PEN, 0), Key(KEY_TOOL_RUBBER, 0));
    ReceiveOne(ReceiveAll(d, RELEASE_KEYS), Abs(ABS_PRESSURE, 0));
  }

  lemma {:induction false} ReceiveTools(d: Stylus, p: Pen, e: PointerEvent)
    ensures ReceiveAll(d, ToolEvents(p, e)) ==
              d.(touch := d.touch || e.kind.Down?,
                 pen := !e.eraser && (ShowsPen(p, e) || d.pen),
                 rubber := e.eraser || (!ShowsPen(p, e) && d.rubber))
  {
    var a := if e.kind.Down? then [Key(KEY_TOUCH, 1)] else [];
    var b := if ShowsPen(p, e) then [Key(KEY_TOOL_PEN, 1), Key(KEY_TOOL_RUBBER, 0)] else [];
    var c := if e.eraser then [Key(KEY_TOOL_PEN, 0), Key(KEY_TOOL_RUBBER, 1)] else [];
    ReceiveBoth(d, a + b, c);
    ReceiveBoth(d, a, b);
    if a != [] { ReceiveOne(d, a[0]); }
    var d1 := ReceiveAll(d, a);
    if b != [] { ReceiveTwo(d1, b[0], b[1]); }
    var d2 := ReceiveAll(d1, b);
    if c != [] { ReceiveTwo(d2, c[0], c[1]); }
  }

  lemma {:induction false} ReceiveContact(d: Stylus, p: Pen, e: PointerEvent, g: Rect)
    requires Contact(e.kind)
    ensures ReceiveAll(d, PenEvents(p, e, g)) ==
              ReceiveAll(d, ToolEvents(p, e)).(
                x := Transform(e.x, g.x, g.w), y := Transform(e.y, g.y, g.h), pressure := PenPressure(p, e),
                tiltX := e.tiltX, tiltY := e.tiltY, distance := HoverDistance(e.pressure))
  {
    var tools := ToolEvents(p, e);
    var a := [ Abs(ABS_X, Transform(e.x, g.x, g.w)), Abs(ABS_Y, Transform(e.y, g.y, g.h)),
               Abs(ABS_PRESSURE, PenPressure(p, e)) ];
    var b := [ Abs(ABS_TILT_X, e.tiltX), Abs(ABS_TILT_Y, e.tiltY), Abs(ABS_DISTANCE, HoverDistance(e.pressure)) ];
    ReceiveBoth(d, tools + a, b);
    ReceiveBoth(d, tools, a);
    ReceiveThree(ReceiveAll(d, tools), a[0], a[1], a[2]);
    ReceiveThree(ReceiveAll(d, tools + a), b[0], b[1], b[2]);
  }

  lemma {:induction false} ReceiveLift(d: Stylus, p: Pen, e: PointerEvent, g: Rect)
    requires !Contact(e.kind)
    ensures ReceiveAll(d, PenEvents(p, e, g)) ==
              d.(touch := false, pen := false, rubber := false, pressure := 0, distance := ABS_MAXVAL)
  {
    var a := RELEASE_KEYS + [Abs(ABS_PRESSURE, 0)];
    ReceiveBoth(d, a, [Abs(ABS_DISTANCE, ABS_MAXVAL)]);
    ReceiveRelease(d);
    ReceiveOne(ReceiveAll(d, a), Abs(ABS_DISTANCE, ABS_MAXVAL));
  }

  // -------------------------------------------------------------------------
  // Every run
  // -------------------------------------------------------------------------

  function PenRun(run: seq<Input>): Pen {
    if run == [] then Pen(false, false, 0) else NextPen(PenRun(run[..|run| - 1]), run[|run| - 1])
  }

  const UNTOUCHED := Stylus(false, false, false, 0, 0, 0, 0, 0, 0)

  function StylusAfter(run: seq<Input>): Stylus {
    if run == [] then UNTOUCHED
    else
      var before := run[..|run| - 1];
      ReceiveAll(StylusAfter(before), Emitted(PenRun(before), run[|run| - 1]))
  }

  predicate Agrees(p: Pen, d: Stylus) {
    && (d.pen <==> p.active)
    && (d.touch <==> p.touching)
    && !(d.pen && d.rubber)
    && (d.pressure != 0 ==> p.touching)
  }

  predicate ForPen(i: Input) {
    i.pen && i.geometry.Some?
  }

  /** One event, with the stale hover cleared first. */
  lemma {:induction false} PenStep(p: Pen, d: Stylus, i: Input)
    requires Agrees(p, d)
    ensures Agrees(NextPen(p, i), ReceiveAll(d, Emitted(p, i)))
    ensures var n := ReceiveAll(d, Emitted(p, i));
      && (ForPen(i) && Contact(i.event.kind) ==>
            && InPlace(n.x, n.y, i.event, i.geometry.value)
            && n.tiltX == i.event.tiltX && n.tiltY == i.event.tiltY
            && n.pressure == (if NextPen(p, i).touching then TransformPressure(i.event.pressure) else 0)
            && n.distance == HoverDistance(i.event.pressure))
      && (ForPen(i) && !Contact(i.event.kind) ==>
            && !n.pen && !n.rubber && !n.touch && n.pressure == 0
            && n == d.(pen := false, rubber := false, touch := false, pressure := 0, distance := ABS_MAXVAL))
      && (!ForPen(i) ==> n == d || n == d.(pen := false, rubber := false, touch := false, pressure := 0))
  {
    if i.geometry.Some? {
      var q, clear := ClearedPen(p, i.now), ClearEvents(p, i.now);
      var rest := if i.pen then PenEvents(q, i.event, i.geometry.value) else [];
      ReceiveBoth(d, clear, rest);
      if Stale(p, i.now) { ReceiveRelease(d); }
      var d1 := ReceiveAll(d, clear);
      assert Agrees(q, d1);
      if i.pen {
        if Contact(i.event.kind) {
          ReceiveContact(d1, q, i.event, i.geometry.value);
          ReceiveTools(d1, q, i.event);
        } else {
          ReceiveLift(d1, q, i.event, i.geometry.value);
        }
      }
    }
  }

  /**
    After every stream of pointer events: the pen tool is asserted exactly when
    the driver believes it is, touch likewise, pen and rubber never both, and a
    nonzero pressure only while touching.
  */
  lemma {:induction false} StylusAgreesWithDriver(run: seq<Input>)
    ensures Agrees(PenRun(run), StylusAfter(run))
  {
    if run != [] {
      StylusAgreesWithDriver(run[..|run| - 1]);
      PenStep(PenRun(run[..|run| - 1]), StylusAfter(run[..|run| - 1]), run[|run| - 1]);
    }
  }

  /** The last event for the pen that was not refused. */
  function LastForPen(run: seq<Input>): Option<Input> {
    if run == [] then None
    else if ForPen(run[|run| - 1]) then Some(run[|run| - 1])
    else LastForPen(run[..|run| - 1])
  }

  /** The last of them that was a contact. */
  function LastContact(run: seq<Input>): Option<Input> {
    if run == [] then None
    else if ForPen(run[|run| - 1]) && Contact(run[|run| - 1].event.kind) then Some(run[|run| - 1])
    else LastContact(run[..|run| - 1])
  }

  /** The tip went down, and was not lifted since. */
  predicate Pressed(run: seq<Input>) {
    run != [] &&
      var i := run[|run| - 1];
      if ForPen(i) && (i.event.kind.Down? || !Contact(i.event.kind)) then i.event.kind.Down?
      else Pressed(run[..|run| - 1])
  }

  predicate ShowsPosition(d: Stylus, last: Option<Input>) {
    if last.None? || last.value.geometry.None? then d.x == 0 && d.y == 0 && d.tiltX == 0 && d.tiltY == 0
    else
      var e := last.value.event;
      InPlace(d.x, d.y, e, last.value.geometry.value) && d.tiltX == e.tiltX && d.tiltY == e.tiltY
  }

  /** Pressure is that of the last event while the tip is down; the distance is an end of its axis. */
  predicate ShowsTip(d: Stylus, last: Option<Input>, pressed: bool) {
    && (d.touch <==> pressed)
    && (pressed ==> last.Some? && Truncated(d.pressure, 65535.0 * last.value.event.pressure))
    && (!pressed ==> d.pressure == 0)
    && (last.None? ==> d.distance == 0)
    && (last.Some? ==>
          d.distance ==
            if Contact(last.value.event.kind) && last.value.event.pressure > 0.0 then 0 else ABS_MAXVAL)
  }

  lemma {:induction false} TipStep(p: Pen, d: Stylus, i: Input, last: Option<Input>, pressed: bool)
    requires Agrees(p, d) && ShowsTip(d, last, pressed)
    ensures ShowsTip(ReceiveAll(d, Emitted(p, i)), if ForPen(i) then Some(i) else last,
                     if ForPen(i) && (i.event.kind.Down? || !Contact(i.event.kind)) then i.event.kind.Down? else pressed)
  {
    PenStep(p, d, i);
  }

  lemma {:induction false} PositionStep(p: Pen, d: Stylus, i: Input, last: Option<Input>)
    requires Agrees(p, d) && ShowsPosition(d, last)
    ensures ShowsPosition(ReceiveAll(d, Emitted(p, i)), if ForPen(i) && Contact(i.event.kind) then Some(i) else last)
  {
    PenStep(p, d, i);
  }

  predicate TimedBy(p: Pen, last: Option<Input>) {
    (last.None? ==> !p.active) && (last.Some? ==> p.last == last.value.now)
  }

  lemma {:induction false} LastIsTimed(run: seq<Input>)
    ensures TimedBy(PenRun(run), LastForPen(run))
  {
    if run != [] {
      LastIsTimed(run[..|run| - 1]);
    }
  }

  /** More than 50 milliseconds after the last pen event, with the tip up. */
  predicate HoverIsOver(run: seq<Input>, now: nat) {
    LastForPen(run).Some? && !Pressed(run) && now - LastForPen(run).value.now > 50_000_000
  }

  lemma {:induction false} HoverStep(p: Pen, d: Stylus, i: Input)
    requires Agrees(p, d) && !i.pen && i.geometry.Some?
    ensures ReceiveAll(d, Emitted(p, i)) ==
              if d.pen && !d.touch && i.now - p.last > STALE_HOVER
              then d.(pen := false, rubber := false, pressure := 0) else d
  {
    assert ClearEvents(p, i.now) + [] == ClearEvents(p, i.now);
    if Stale(p, i.now) { ReceiveRelease(d); }
  }

  /** An event for something else takes a hovering pen back exactly when its time is over, and leaves the rest. */
  lemma {:induction false} HoverIsClearedInTime(run: seq<Input>, i: Input)
    requires !i.pen && i.geometry.Some?
    ensures var before, after := StylusAfter(run), StylusAfter(run + [i]);
      after == if before.pen && HoverIsOver(run, i.now) then before.(pen := false) else before
  {
    assert (run + [i])[..|run|] == run;
    StylusAgreesWithDriver(run);
    StylusShowsPen(run);
    LastIsTimed(run);
    HoverStep(PenRun(run), StylusAfter(run), i);
  }

  /** A pen contact shows the eraser if it is one, the pen unless its eraser is held, and else what was shown. */
  lemma {:induction false} ContactShowsTool(run: seq<Input>, i: Input)
    requires ForPen(i) && Contact(i.event.kind)
    ensures var before, after := StylusAfter(run), StylusAfter(run + [i]);
      && (i.event.eraser ==> after.rubber && !after.pen)
      && (!i.event.eraser && !i.event.eraserHeld ==> after.pen && !after.rubber)
      && (!i.event.eraser && i.event.eraserHeld ==>
            after.rubber == before.rubber && (after.pen <==> before.pen && !HoverIsOver(run, i.now)))
  {
    assert (run + [i])[..|run|] == run;
    StylusAgreesWithDriver(run);
    StylusShowsPen(run);
    LastIsTimed(run);
    ToolStep(PenRun(run), StylusAfter(run), i);
  }

  lemma {:induction false} ToolStep(p: Pen, d: Stylus, i: Input)
    requires Agrees(p, d) && ForPen(i) && Contact(i.event.kind)
    ensures var n := ReceiveAll(d, Emitted(p, i)); var q := ClearedPen(p, i.now);
      && n.pen == (!i.event.eraser && (ShowsPen(q, i.event) || q.active))
      && n.rubber == (i.event.eraser || (!ShowsPen(q, i.event) && d.rubber))
  {
    var q := ClearedPen(p, i.now);
    var clear, rest := ClearEvents(p, i.now), PenEvents(q, i.event, i.geometry.value);
    ReceiveBoth(d, clear, rest);
    if Stale(p, i.now) { ReceiveRelease(d); }
    var d1 := ReceiveAll(d, clear);
    ReceiveContact(d1, q, i.event, i.geometry.value);
    ReceiveTools(d1, q, i.event);
  }

  /**
    After every stream of pointer events the stylus stands where the last contact was in the
    captured area, tilted as it was, and its tip and distance are those of the last pen event.
  */
  lemma {:induction false} StylusShowsPen(run: seq<Input>)
    ensures ShowsPosition(StylusAfter(run), LastContact(run))
    ensures ShowsTip(StylusAfter(run), LastForPen(run), Pressed(run))
  {
    if run != [] {
      var before, i := run[..|run| - 1], run[|run| - 1];
      StylusShowsPen(before);
      StylusAgreesWithDriver(before);
      TipStep(PenRun(before), StylusAfter(before), i, LastForPen(before), Pressed(before));
      PositionStep(PenRun(before), StylusAfter(before), i, LastContact(before));
    }
  }

  /**
    A pointer event of another kind, long enough after the last pen event, leaves
    no tool of a lifted pen asserted if and only if the rubber was not: a hovering
    eraser is never taken back.
  */
  lemma {:induction false} HoveringEraserStays(run: seq<Input>, i: Input)
    requires i.geometry.Some? && !i.pen && !PenRun(run).touching
    requires i.now > PenRun(run).last + STALE_HOVER
    ensures var d := StylusAfter(run + [i]);
      && !d.pen
      && (!d.rubber <==> !StylusAfter(run).rubber)
  {
    StylusAgreesWithDriver(run);
    assert (run + [i])[..|run|] == run;
    var p, d := PenRun(run), StylusAfter(run);
    PenStep(p, d, i);
    assert ClearEvents(p, i.now) + [] == ClearEvents(p, i.now);
    if Stale(p, i.now) { ReceiveRelease(d); }
  }

  /** And a hovering eraser there is: no touch, no pen, and it stays past the time for clearing. */
  lemma {:induction false} EraserHovers() returns (run: seq<Input>, i: Input)
    ensures i.geometry.Some? && !i.pen && !PenRun(run).touching && i.now > PenRun(run).last + STALE_HOVER
    ensures var d := StylusAfter(run + [i]); d.rubber && !d.touch && !d.pen
  {
    var g := Rect(0.0, 0.0, 1.0, 1.0);
    var e := PointerEvent(Over, 1, 0.0, 0.0, 0.0, 0.0, 0.0, 0, 0, true, true);
    var hover := Input(e, true, 0, Some(g));
    run := [hover];
    i := Input(e, false, STALE_HOVER + 1, Some(g));
    assert run[..0] == [];
    var p, d := PenRun([]), StylusAfter([]);
    assert Emitted(p, hover) == [] + PenEvents(p, e, g);
    assert [] + PenEvents(p, e, g) == PenEvents(p, e, g);
    ReceiveContact(d, p, e, g);
    ReceiveTools(d, p, e);
    assert StylusAfter(run).rubber;
    HoveringEraserStays(run, i);
    StylusAgreesWithDriver(run + [i]);
    assert (run + [i])[..1] == run;
  }
}
