/** Input events as the uinput driver writes them, and the pointer events it translates. */
module Evdev {
  import opened Prelude

  datatype Event = Key(code: int, value: int) | Abs(code: int, value: int)

  const KEY_TOOL_PEN := 0x140
  const KEY_TOOL_RUBBER := 0x141
  const KEY_TOUCH := 0x14a
  const KEY_TOOL_FINGER := 0x145
  const KEY_TOOL_DOUBLETAP := 0x14d
  const KEY_TOOL_TRIPLETAP := 0x14e
  const KEY_TOOL_QUADTAP := 0x14f
  const KEY_TOOL_QUINTTAP := 0x148

  const ABS_X := 0x00
  const ABS_Y := 0x01
  const ABS_PRESSURE := 0x18
  const ABS_DISTANCE := 0x19
  const ABS_TILT_X := 0x1a
  const ABS_TILT_Y := 0x1b
  const ABS_MT_SLOT := 0x2f
  const ABS_MT_TOUCH_MAJOR := 0x30
  const ABS_MT_TOUCH_MINOR := 0x31
  const ABS_MT_ORIENTATION := 0x34
  const ABS_MT_POSITION_X := 0x35
  const ABS_MT_POSITION_Y := 0x36
  const ABS_MT_TRACKING_ID := 0x39
  const ABS_MT_PRESSURE := 0x3a

  const ABS_MAXVAL := 65535

  datatype Kind = Down | Move | Over | Enter | Up | Cancel | Leave | Out

  /** `eraser`: the button that changed is the eraser; `eraserHeld`: it is among the buttons held. */
  datatype PointerEvent = PointerEvent(
    kind: Kind, id: int, x: real, y: real, pressure: real, width: real, height: real,
    tiltX: int, tiltY: int, eraser: bool, eraserHeld: bool)

  datatype Rect = Rect(x: real, y: real, w: real, h: real)

  predicate Contact(k: Kind) {
    k.Down? || k.Move? || k.Over? || k.Enter?
  }

  /** `t` is `r` rounded toward zero, kept within 32 bits. */
  predicate Truncated(t: int, r: real) {
    if r >= 2147483648.0 then t == 0x7fff_ffff
    else if r <= -2147483648.0 then t == -0x8000_0000
    else if r >= 0.0 then t as real <= r < t as real + 1.0
    else t as real - 1.0 < r <= t as real
  }

  /** `t` is the place of fraction `q` on the axis, and an end of the axis where `q` is outside. */
  predicate OnAxis(t: int, q: real) {
    if q < 0.0 then t == 0
    else if q > 1.0 then t == ABS_MAXVAL
    else t as real <= 65535.0 * q < t as real + 1.0
  }

  /** Axis values of the event's place in the captured area. */
  predicate InPlace(x: int, y: int, e: PointerEvent, g: Rect) {
    OnAxis(x, g.x + e.x * g.w) && OnAxis(y, g.y + e.y * g.h)
  }

  /** The source's `as i32`: truncation toward zero, saturating. */
  function ToI32(r: real): (t: int)
    ensures Truncated(t, r)
  {
    var t := if r >= 0.0 then r.Floor else -((-r).Floor);
    Min(Max(t, -0x8000_0000), 0x7fff_ffff)
  }

  function Clamp01(r: real): real {
    if r < 0.0 then 0.0 else if r > 1.0 then 1.0 else r
  }

  /** A coordinate in the captured area, moved into the screen and scaled to the axis. */
  function Transform(v: real, origin: real, extent: real): (t: int)
    ensures 0 <= t <= ABS_MAXVAL && OnAxis(t, origin + v * extent)
  {
    ToI32(Clamp01(v * extent + origin) * 65535.0)
  }

  function TransformPressure(p: real): (t: int)
    ensures Truncated(t, 65535.0 * p)
  {
    ToI32(p * 65535.0)
  }
}
