/**
  The multitouch half of the uinput driver: what it emits for each touch event,
  folded through a slot-based multitouch device, always agrees with the driver's
  own table of pointers.
*/
module UinputTouch {
  import opened Prelude
  import opened Evdev

  const SLOTS := 5

  /** The driver's table: which pointer occupies each slot. */
  type Table = t: seq<Option<int>> | |t| == SLOTS witness [None, None, None, None, None]

  const EMPTY: Table := [None, None, None, None, None]

  // -------------------------------------------------------------------------
  // The driver
  // -------------------------------------------------------------------------

  /** First slot at or after `i` that holds `entry`. */
  function SlotOf(t: seq<Option<int>>, entry: Option<int>, i: nat): (r: Option<nat>)
    requires i <= |t|
    ensures r.Some? ==> i <= r.value < |t| && t[r.value] == entry && entry !in t[i..r.value]
    ensures r.None? ==> entry !in t[i..]
    decreases |t| - i
  {
    if i == |t| then None
    else if t[i] == entry then Some(i)
    else SlotOf(t, entry, i + 1)
  }

  /** The slot an event for this pointer works on: its own, else the first free one. */
  function Assign(t: Table, id: int): Option<nat> {
    var own := SlotOf(t, Some(id), 0);
    if own.Some? then own else SlotOf(t, None, 0)
  }

  function Count(t: seq<Option<int>>): (n: nat)
    ensures n <= |t|
  {
    if t == [] then 0 else Count(t[1..]) + if t[0].Some? then 1 else 0
  }

  function ToolKey(count: nat): int {
    match count
    case 1 => KEY_TOOL_FINGER
    case 2 => KEY_TOOL_DOUBLETAP
    case 3 => KEY_TOOL_TRIPLETAP
    case 4 => KEY_TOOL_QUADTAP
    case _ => KEY_TOOL_QUINTTAP
  }

  function DownKeys(count: nat): seq<Event> {
    [Key(KEY_TOUCH, 1)] +
    (if count > 1 then [Key(ToolKey(count - 1), 0)] else []) +
    [Key(ToolKey(count), 1)]
  }

  function UpKeys(count: nat): seq<Event> {
    [Key(KEY_TOUCH, 0), Key(ToolKey(count), 0)] +
    if count > 1 then [Key(ToolKey(count - 1), 1)] else []
  }

  /** What a slot says of its contact besides the place. */
  datatype Shape = Shape(pressure: int, major: int, minor: int, orientation: int)

  function ShapeOf(e: PointerEvent): (s: Shape)
    ensures ShowsShape(s, e)
  {
    var major, minor := if e.height >= e.width then e.height else e.width,
                        if e.height >= e.width then e.width else e.height;
    Shape(TransformPressure(e.pressure), TransformPressure(major), TransformPressure(minor),
          if e.height >= e.width then 0 else 1)
  }

  function ContactShape(s: Shape): seq<Event> {
    [ Abs(ABS_MT_PRESSURE, s.pressure), Abs(ABS_MT_TOUCH_MAJOR, s.major),
      Abs(ABS_MT_TOUCH_MINOR, s.minor), Abs(ABS_MT_ORIENTATION, s.orientation) ]
  }

  function ContactPosition(tx: int, ty: int): seq<Event> {
    [ Abs(ABS_MT_POSITION_X, tx), Abs(ABS_MT_POSITION_Y, ty), Abs(ABS_X, tx), Abs(ABS_Y, ty) ]
  }

  function SelectSlot(slot: nat, id: int): seq<Event> {
    [Abs(ABS_MT_SLOT, slot), Abs(ABS_MT_TRACKING_ID, id)]
  }

  /** One touch event under the geometry of its moment; `None`: the capturable refused input. */
  datatype Input = Input(event: PointerEvent, geometry: Option<Rect>)

  predicate Releases(t: Table, i: Input) {
    i.geometry.Some? && !Contact(i.event.kind) && SlotOf(t, Some(i.event.id), 0).Some?
  }

  predicate Touches(t: Table, i: Input) {
    i.geometry.Some? && Contact(i.event.kind) && Assign(t, i.event.id).Some?
  }

  function NextTable(t: Table, i: Input): Table {
    if Touches(t, i) then t[Assign(t, i.event.id).value := Some(i.event.id)]
    else if Releases(t, i) then t[SlotOf(t, Some(i.event.id), 0).value := None]
    else t
  }

  function Emitted(t: Table, i: Input): seq<Event> {
    var e := i.event;
    if Touches(t, i) then
      var slot := Assign(t, e.id).value;
      var g := i.geometry.value;
      SelectSlot(slot, slot) +
      (if e.kind.Down? then DownKeys(Count(NextTable(t, i))) else []) +
      ContactShape(ShapeOf(e)) +
      ContactPosition(Transform(e.x, g.x, g.w), Transform(e.y, g.y, g.h))
    else if Releases(t, i) then
      SelectSlot(SlotOf(t, Some(e.id), 0).value, -1) +
      UpKeys(Count(t))
    else []
  }

  // -------------------------------------------------------------------------
  // The device the events are written to
  // -------------------------------------------------------------------------

  datatype Contacts = Contacts(id: int, x: int, y: int, shape: Shape)

  /**
    A multitouch device of protocol type B: multitouch axis events go to the selected slot.
    `x` and `y` are the axes of a device with a single pointer.
  */
  datatype Touchscreen = Touchscreen(slot: nat, slots: seq<Contacts>, keys: set<int>, x: int, y: int)

  const LIFTED := Contacts(-1, 0, 0, Shape(0, 0, 0, 0))
  const IDLE := Touchscreen(0, [LIFTED, LIFTED, LIFTED, LIFTED, LIFTED], {}, 0, 0)

  function InSlot(d: Touchscreen, c: Contacts): Touchscreen
    requires d.slot < |d.slots|
  {
    d.(slots := d.slots[d.slot := c])
  }

  function Receive(d: Touchscreen, e: Event): Touchscreen {
    match e
    case Key(code, value) => d.(keys := if value == 0 then d.keys - {code} else d.keys + {code})
    case Abs(code, value) =>
      if code == ABS_MT_SLOT then (if value >= 0 then d.(slot := value) else d)
      else if code == ABS_X then d.(x := value)
      else if code == ABS_Y then d.(y := value)
      else if d.slot >= |d.slots| then d
      else
        var c := d.slots[d.slot];
        if code == ABS_MT_TRACKING_ID then InSlot(d, c.(id := value))
        else if code == ABS_MT_POSITION_X then InSlot(d, c.(x := value))
        else if code == ABS_MT_POSITION_Y then InSlot(d, c.(y := value))
        else if code == ABS_MT_PRESSURE then InSlot(d, c.(shape := c.shape.(pressure := value)))
        else if code == ABS_MT_TOUCH_MAJOR then InSlot(d, c.(shape := c.shape.(major := value)))
        else if code == ABS_MT_TOUCH_MINOR then InSlot(d, c.(shape := c.shape.(minor := value)))
        else if code == ABS_MT_ORIENTATION then InSlot(d, c.(shape := c.shape.(orientation := value)))
        else d
  }

  function ReceiveAll(d: Touchscreen, es: seq<Event>): Touchscreen
    decreases |es|
  {
    if es == [] then d else ReceiveAll(Receive(d, es[0]), es[1..])
  }

  lemma {:induction false} ReceiveBoth(d: Touchscreen, a: seq<Event>, b: seq<Event>)
    ensures ReceiveAll(d, a + b) == ReceiveAll(ReceiveAll(d, a), b)
    decreases |a|
  {
    if a == [] {
      assert a + b == b;
    } else {
      assert (a + b)[0] == a[0] && (a + b)[1..] == a[1..] + b;
      ReceiveBoth(Receive(d, a[0]), a[1..], b);
    }
  }

  lemma {:induction false} ReceiveTwo(d: Touchscreen, a: Event, b: Event)
    ensures ReceiveAll(d, [a, b]) == Receive(Receive(d, a), b)
  {
    assert [a, b][1..] == [b];
    ReceiveOne(Receive(d, a), b);
  }

  lemma {:induction false} ReceiveOne(d: Touchscreen, a: Event)
    ensures ReceiveAll(d, [a]) == Receive(d, a)
  {
    assert [a][1..] == [];
  }

  /** Selecting a slot and writing its tracking id. */
  lemma {:induction false} ReceiveSelect(d: Touchscreen, slot: nat, id: int)
    requires slot < |d.slots|
    ensures ReceiveAll(d, SelectSlot(slot, id)) ==
              d.(slot := slot, slots := d.slots[slot := d.slots[slot].(id := id)])
  {
    ReceiveTwo(d, Abs(ABS_MT_SLOT, slot), Abs(ABS_MT_TRACKING_ID, id));
  }

  lemma {:induction false} ReceiveShape(d: Touchscreen, s: Shape)
    requires d.slot < |d.slots|
    ensures ReceiveAll(d, ContactShape(s)) == InSlot(d, d.slots[d.slot].(shape := s))
  {
    var es := ContactShape(s);
    assert es == [es[0], es[1], es[2], es[3]];
    ReceiveFour(d, es[0], es[1], es[2], es[3]);
  }

  lemma {:induction false} ReceiveFour(d: Touchscreen, a: Event, b: Event, c: Event, e: Event)
    ensures ReceiveAll(d, [a, b, c, e]) == Receive(Receive(Receive(Receive(d, a), b), c), e)
  {
    assert [a, b, c, e] == [a, b] + [c, e];
    ReceiveBoth(d, [a, b], [c, e]);
    ReceiveTwo(d, a, b);
    ReceiveTwo(Receive(Receive(d, a), b), c, e);
  }

  lemma {:induction false} ReceivePosition(d: Touchscreen, tx: int, ty: int)
    requires d.slot < |d.slots|
    ensures ReceiveAll(d, ContactPosition(tx, ty)) ==
              InSlot(d, d.slots[d.slot].(x := tx, y := ty)).(x := tx, y := ty)
  {
    var s := ContactPosition(tx, ty);
    assert s == [s[0], s[1], s[2], s[3]];
    ReceiveFour(d, s[0], s[1], s[2], s[3]);
  }

  function KeysAfterDown(keys: set<int>, count: nat): set<int> {
    (if count > 1 then keys + {KEY_TOUCH} - {ToolKey(count - 1)} else keys + {KEY_TOUCH}) + {ToolKey(count)}
  }

  function KeysAfterUp(keys: set<int>, count: nat): set<int> {
    var k := keys - {KEY_TOUCH} - {ToolKey(count)};
    if count > 1 then k + {ToolKey(count - 1)} else k
  }

  lemma {:induction false} ReceiveDown(d: Touchscreen, count: nat)
    ensures ReceiveAll(d, DownKeys(count)) == d.(keys := KeysAfterDown(d.keys, count))
  {
    var a, c := [Key(KEY_TOUCH, 1)], [Key(ToolKey(count), 1)];
    var b := if count > 1 then [Key(ToolKey(count - 1), 0)] else [];
    ReceiveBoth(d, a + b, c);
    ReceiveBoth(d, a, b);
    ReceiveOne(d, a[0]);
    if count > 1 { ReceiveOne(Receive(d, a[0]), b[0]); }
    ReceiveOne(ReceiveAll(ReceiveAll(d, a), b), c[0]);
  }

  lemma {:induction false} ReceiveUp(d: Touchscreen, count: nat)
    ensures ReceiveAll(d, UpKeys(count)) == d.(keys := KeysAfterUp(d.keys, count))
  {
    var a := [Key(KEY_TOUCH, 0), Key(ToolKey(count), 0)];
    var b := if count > 1 then [Key(ToolKey(count - 1), 1)] else [];
    ReceiveBoth(d, a, b);
    ReceiveTwo(d, a[0], a[1]);
    if count > 1 { ReceiveOne(ReceiveAll(d, a), b[0]); }
  }

  /** The pressure and both diameters of a contact; the second orientation is the wide one. */
  predicate ShowsShape(s: Shape, e: PointerEvent) {
    var wide := e.width > e.height;
    && Truncated(s.pressure, 65535.0 * e.pressure)
    && Truncated(s.major, 65535.0 * if wide then e.width else e.height)
    && Truncated(s.minor, 65535.0 * if wide then e.height else e.width)
    && s.orientation == if wide then 1 else 0
  }

  predicate Shows(c: Contacts, e: PointerEvent, g: Rect) {
    InPlace(c.x, c.y, e, g) && ShowsShape(c.shape, e)
  }

  function ContactOf(slot: nat, e: PointerEvent, g: Rect): (c: Contacts)
    ensures c.id == slot && Shows(c, e, g)
  {
    Contacts(slot, Transform(e.x, g.x, g.w), Transform(e.y, g.y, g.h), ShapeOf(e))
  }

  /** What the device makes of one touch event, in one line per aspect. */
  lemma {:induction false} DeviceStep(d: Touchscreen, t: Table, i: Input)
    requires |d.slots| == SLOTS
    ensures var n := ReceiveAll(d, Emitted(t, i)); var e := i.event;
      && (Touches(t, i) ==>
            var slot := Assign(t, e.id).value; var g := i.geometry.value;
            && n.slots == d.slots[slot := ContactOf(slot, e, g)]
            && n.x == n.slots[slot].x && n.y == n.slots[slot].y
            && n.keys == if e.kind.Down? then KeysAfterDown(d.keys, Count(NextTable(t, i))) else d.keys)
      && (Releases(t, i) ==>
            var slot := SlotOf(t, Some(e.id), 0).value;
            && n.slots == d.slots[slot := d.slots[slot].(id := -1)] && n.x == d.x && n.y == d.y
            && n.keys == KeysAfterUp(d.keys, Count(t)))
      && (!Touches(t, i) && !Releases(t, i) ==> n == d)
  {
    if Touches(t, i) {
      TouchStep(d, t, i);
    } else if Releases(t, i) {
      var slot := SlotOf(t, Some(i.event.id), 0).value;
      ReceiveBoth(d, SelectSlot(slot, -1), UpKeys(Count(t)));
      ReceiveSelect(d, slot, -1);
      ReceiveUp(ReceiveAll(d, SelectSlot(slot, -1)), Count(t));
    }
  }

  lemma {:induction false} TouchStep(d: Touchscreen, t: Table, i: Input)
    requires |d.slots| == SLOTS && Touches(t, i)
    ensures var n := ReceiveAll(d, Emitted(t, i)); var e := i.event;
      var slot := Assign(t, e.id).value; var g := i.geometry.value;
      && n.slots == d.slots[slot := ContactOf(slot, e, g)]
      && n.x == n.slots[slot].x && n.y == n.slots[slot].y
      && n.keys == if e.kind.Down? then KeysAfterDown(d.keys, Count(NextTable(t, i))) else d.keys
  {
    var e, g := i.event, i.geometry.value;
    var slot := Assign(t, e.id).value;
    var select := SelectSlot(slot, slot);
    var keys := if e.kind.Down? then DownKeys(Count(NextTable(t, i))) else [];
    var shape := ContactShape(ShapeOf(e));
    var position := ContactPosition(Transform(e.x, g.x, g.w), Transform(e.y, g.y, g.h));
    ReceiveBoth(d, select + keys + shape, position);
    ReceiveBoth(d, select + keys, shape);
    ReceiveBoth(d, select, keys);
    ReceiveSelect(d, slot, slot);
    var d1 := ReceiveAll(d, select);
    if e.kind.Down? { ReceiveDown(d1, Count(NextTable(t, i))); }
    var d2 := ReceiveAll(d1, keys);
    ReceiveShape(d2, ShapeOf(e));
    ReceivePosition(ReceiveAll(d2, shape), Transform(e.x, g.x, g.w), Transform(e.y, g.y, g.h));
  }
}
