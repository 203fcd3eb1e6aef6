/** Drawing the mouse cursor over a captured picture, in place. */
module CompositeCursor {
  import opened Prelude
  import opened Offsets

  /** A 32-bit pixel by its bytes. */
  datatype Pixel = Pixel(a: Byte, r: Byte, g: Byte, b: Byte)

  /** The cursor image, its corner at (x, y) of the picture. */
  datatype Cursor = Cursor(x: int, y: int, w: nat, h: nat, pixels: seq<Pixel>)

  // -------------------------------------------------------------------------
  // Blending
  // -------------------------------------------------------------------------

  predicate Premultiplied(p: Pixel) {
    p.r <= p.a && p.g <= p.a && p.b <= p.a
  }

  /** `f` is `c`, and of `d` the share that alpha `a` lets through, rounded down. */
  predicate IsOver(f: int, c: int, d: int, a: int) {
    255 * (f - c) <= d * (255 - a) < 255 * (f - c) + 255
  }

  /** One channel of a cursor pixel over one of the picture; it has to fit its eight bits. */
  function Over(c: Byte, d: Byte, a: Byte): (f: Byte)
    requires c <= a
    ensures IsOver(f, c, d, a) && c <= f <= c + d
    ensures (a == 255 ==> f == c) && (a == 0 ==> f == d)
  {
    Shade(d, 255 - a);
    c + d * (255 - a) / 255
  }

  /** What shows through takes no more than the cursor leaves. */
  lemma {:induction false} Shade(d: Byte, k: Byte)
    ensures 0 <= d * k / 255 <= k && 255 * (d * k / 255) <= d * k < 255 * (d * k / 255) + 255
    ensures d * k / 255 <= d && (k == 0 ==> d * k / 255 == 0) && (k == 255 ==> d * k / 255 == d)
  {
    var n := d * k;
    assert n <= 255 * k && n <= 255 * d;
  }

  function Blend(p: Pixel, d: Pixel): Pixel
    requires Premultiplied(p)
  {
    Pixel(0, Over(p.r, d.r, p.a), Over(p.g, d.g, p.a), Over(p.b, d.b, p.a))
  }

  /** What shows where pixel `p` of the cursor lies over `d`: each of the three colours for itself. */
  predicate Shows(t: Pixel, p: Pixel, d: Pixel) {
    if p.a == 0 then t == d
    else t.a == 0 && IsOver(t.r, p.r, d.r, p.a) && IsOver(t.g, p.g, d.g, p.a) && IsOver(t.b, p.b, d.b, p.a)
  }

  function Drawn(p: Pixel, d: Pixel): (t: Pixel)
    requires Premultiplied(p)
    ensures Shows(t, p, d)
  {
    if p.a > 0 then Blend(p, d) else d
  }

  // -------------------------------------------------------------------------
  // Clipping
  // -------------------------------------------------------------------------

  function First(at: int, length: nat, size: nat): int {
    Min(Min(Max(0, -at), size - at), length)
  }

  function Last(at: int, length: nat, size: nat): int {
    Max(Min(length, size - at), 0)
  }

  /** Position `i` of the cursor lies on the picture. */
  predicate Inside(i: int, at: int, length: nat, size: nat) {
    0 <= i < length && 0 <= i + at < size
  }

  predicate Clipped(i: int, at: int, length: nat, size: nat) {
    First(at, length, size) <= i < Last(at, length, size)
  }

  /** The clipped range is the visible part of the cursor exactly when the cursor starts before the far edge, or at it. */
  lemma {:induction false} ClipIsExact(at: int, length: nat, size: nat)
    ensures (forall i: int :: Clipped(i, at, length, size) <==> Inside(i, at, length, size)) <==> at <= size
  {
    if at > size {
      assert Clipped(-1, at, length, size) && !Inside(-1, at, length, size);
    }
  }

  // -------------------------------------------------------------------------
  // What drawing should do
  // -------------------------------------------------------------------------

  predicate Sound(c: Cursor) {
    |c.pixels| == Offset(c.h, c.w) && forall p | p in c.pixels :: Premultiplied(p)
  }

  /** The cursor starts neither right of the picture nor below it. */
  predicate StartsOn(c: Cursor, w: nat, h: nat) {
    c.x <= w && c.y <= h
  }

  function PixelAt(s: seq<Pixel>, w: nat, h: nat, x: nat, y: nat): Pixel
    requires |s| == Offset(h, w) && x < w && y < h
  {
    OffsetOfLater(y, h, w);
    s[Offset(y, w) + x]
  }

  function CursorAt(c: Cursor, i: nat, j: nat): (p: Pixel)
    requires Sound(c) && i < c.w && j < c.h
    ensures Premultiplied(p)
  {
    OffsetOfLater(j, c.h, c.w);
    c.pixels[Offset(j, c.w) + i]
  }

  /** What pixel (x, y) of the picture becomes. */
  function Composed(c: Cursor, x: nat, y: nat, d: Pixel): Pixel
    requires Sound(c)
  {
    if 0 <= x - c.x < c.w && 0 <= y - c.y < c.h then Drawn(CursorAt(c, x - c.x, y - c.y), d) else d
  }

  /** The pixels of rows before `end` are composed, the others as they were. */
  predicate ComposedTo(t: seq<Pixel>, s: seq<Pixel>, c: Cursor, w: nat, h: nat, end: int)
    requires Sound(c)
  {
    && |s| == |t| == Offset(h, w)
    && forall x: nat, y: nat | x < w && y < h ::
         PixelAt(t, w, h, x, y) == if y < end then Composed(c, x, y, PixelAt(s, w, h, x, y)) else PixelAt(s, w, h, x, y)
  }

  /** Row `j` of the cursor between `i0` and `i1`, drawn on a row starting at `start`. */
  predicate RowDrawn(t: seq<Pixel>, s: seq<Pixel>, c: Cursor, j: nat, start: nat, i0: int, i1: int)
    requires Sound(c) && j < c.h && 0 <= i0 && i1 <= c.w
  {
    && |t| == |s|
    && forall k: nat | k < |s| ::
         t[k] == if start + i0 + c.x <= k < start + i1 + c.x then Drawn(CursorAt(c, k - start - c.x, j), s[k]) else s[k]
  }

  /** A row of the cursor, clipped, and the row of the picture under it. */
  predicate Fits(c: Cursor, w: nat, h: nat, j: int, i0: int, i1: int) {
    0 <= i0 && i1 <= c.w && 0 <= i0 + c.x && i1 + c.x <= w && 0 <= j < c.h && 0 <= j + c.y < h
  }

  // -------------------------------------------------------------------------
  // The loops, on values: nothing once an index is out of range, which panics
  // -------------------------------------------------------------------------

  function PixelRun(s: seq<Pixel>, w: nat, c: Cursor, j: int, i: int): (r: Option<seq<Pixel>>)
    requires Sound(c)
    ensures r.Some? ==> |r.value| == |s|
  {
    var at := j * c.w + i;
    if !(0 <= at < |c.pixels|) then None
    else
      var p := c.pixels[at];
      var dst := (j + c.y) * w + (i + c.x);
      if p.a == 0 then Some(s)
      else if !(0 <= dst < |s|) then None
      else Some(s[dst := Blend(p, s[dst])])
  }

  function RowRun(s: seq<Pixel>, w: nat, c: Cursor, j: int, i0: int, i: int): (r: Option<seq<Pixel>>)
    requires Sound(c)
    ensures r.Some? ==> |r.value| == |s|
    decreases i - i0
  {
    if i <= i0 then Some(s)
    else
      var before := RowRun(s, w, c, j, i0, i - 1);
      if before.None? then None else PixelRun(before.value, w, c, j, i - 1)
  }

  function AllRun(s: seq<Pixel>, w: nat, c: Cursor, i0: int, i1: int, j0: int, j: int): (r: Option<seq<Pixel>>)
    requires Sound(c)
    ensures r.Some? ==> |r.value| == |s|
    decreases j - j0
  {
    if j <= j0 then Some(s)
    else
      var before := AllRun(s, w, c, i0, i1, j0, j - 1);
      if before.None? then None else RowRun(before.value, w, c, j - 1, i0, i1)
  }

  function CompositeRun(s: seq<Pixel>, w: nat, h: nat, c: Cursor): Option<seq<Pixel>>
    requires Sound(c)
  {
    var i0, i1 := First(c.x, c.w, w), Last(c.x, c.w, w);
    var j0, j1 := First(c.y, c.h, h), Last(c.y, c.h, h);
    if i0 >= i1 || j0 >= j1 then Some(s) else AllRun(s, w, c, i0, i1, j0, j1)
  }

  method DrawPixel(data: array<Pixel>, w: nat, c: Cursor, j: int, i: int) returns (ok: bool)
    requires Sound(c)
    modifies data
    ensures PixelRun(old(data[..]), w, c, j, i) == if ok then Some(data[..]) else None
  {
    var at := j * c.w + i;
    if !(0 <= at < |c.pixels|) {
      return false;
    }
    var p := c.pixels[at];
    if p.a > 0 {
      var dst := (j + c.y) * w + (i + c.x);
      if !(0 <= dst < data.Length) {
        return false;
      }
      data[dst] := Blend(p, data[dst]);
    }
    return true;
  }

  method DrawRow(data: array<Pixel>, w: nat, c: Cursor, j: int, i0: int, i1: int) returns (ok: bool)
    requires Sound(c) && i0 <= i1
    modifies data
    ensures RowRun(old(data[..]), w, c, j, i0, i1) == if ok then Some(data[..]) else None
  {
    ghost var was := data[..];
    for i := i0 to i1
      invariant RowRun(was, w, c, j, i0, i) == Some(data[..])
    {
      ok := DrawPixel(data, w, c, j, i);
      if !ok {
        NoneStays(was, w, c, j, i0, i + 1, i1);
        return;
      }
    }
    return true;
  }

  lemma {:induction false} NoneStays(s: seq<Pixel>, w: nat, c: Cursor, j: int, i0: int, i: int, i1: int)
    requires Sound(c) && i <= i1 && RowRun(s, w, c, j, i0, i).None?
    ensures RowRun(s, w, c, j, i0, i1).None?
    decreases i1 - i
  {
    if i < i1 {
      NoneStays(s, w, c, j, i0, i, i1 - 1);
    }
  }

  lemma {:induction false} NoneStaysDown(s: seq<Pixel>, w: nat, c: Cursor, i0: int, i1: int, j0: int, j: int, j1: int)
    requires Sound(c) && j <= j1 && AllRun(s, w, c, i0, i1, j0, j).None?
    ensures AllRun(s, w, c, i0, i1, j0, j1).None?
    decreases j1 - j
  {
    if j < j1 {
      NoneStaysDown(s, w, c, i0, i1, j0, j, j1 - 1);
    }
  }

  /** The whole cursor.  `ok` is false where an index is out of range, which panics. */
  method Composite(data: array<Pixel>, w: nat, h: nat, c: Cursor) returns (ok: bool)
    requires Sound(c)
    modifies data
    ensures CompositeRun(old(data[..]), w, h, c) == if ok then Some(data[..]) else None
  {
    var i0, i1 := First(c.x, c.w, w), Last(c.x, c.w, w);
    var j0, j1 := First(c.y, c.h, h), Last(c.y, c.h, h);
    ghost var was := data[..];
    if i0 >= i1 || j0 >= j1 {
      return true;
    }
    for j := j0 to j1
      invariant AllRun(was, w, c, i0, i1, j0, j) == Some(data[..])
    {
      ok := DrawRow(data, w, c, j, i0, i1);
      if !ok {
        NoneStaysDown(was, w, c, i0, i1, j0, j + 1, j1);
        return;
      }
    }
    return true;
  }

  // -------------------------------------------------------------------------
  // From a corner on the picture or before it
  // -------------------------------------------------------------------------

  lemma {:induction false} PixelDrawn(s: seq<Pixel>, w: nat, h: nat, c: Cursor, j: int, i: int)
    requires Sound(c) && |s| == Offset(h, w) && Fits(c, w, h, j, i, i + 1)
    ensures var k := Offset(j + c.y, w) + (i + c.x);
      k < |s| && PixelRun(s, w, c, j, i) == Some(s[k := Drawn(CursorAt(c, i, j), s[k])])
  {
    OffsetIsProduct(j, c.w);
    OffsetIsProduct(j + c.y, w);
    OffsetOfLater(j, c.h, c.w);
    OffsetOfLater(j + c.y, h, w);
    var k := Offset(j + c.y, w) + (i + c.x);
    assert s[k := s[k]] == s;
  }

  lemma {:induction false} RowGrows(t: seq<Pixel>, s: seq<Pixel>, c: Cursor, j: nat, start: nat, i0: nat, i: nat)
    requires Sound(c) && j < c.h && i0 <= i < c.w && 0 <= start + i0 + c.x && start + i + c.x < |t|
    requires RowDrawn(t, s, c, j, start, i0, i)
    ensures RowDrawn(t[start + i + c.x := Drawn(CursorAt(c, i, j), t[start + i + c.x])], s, c, j, start, i0, i + 1)
  {
  }

  lemma {:induction false} NextPixelDrawn(t: seq<Pixel>, s: seq<Pixel>, w: nat, h: nat, c: Cursor, j: int, i0: int, i: int)
    requires Sound(c) && |s| == Offset(h, w) && i0 <= i && Fits(c, w, h, j, i0, i + 1)
    requires RowDrawn(t, s, c, j, Offset(j + c.y, w), i0, i)
    ensures var r := PixelRun(t, w, c, j, i);
      r.Some? && RowDrawn(r.value, s, c, j, Offset(j + c.y, w), i0, i + 1)
  {
    PixelDrawn(t, w, h, c, j, i);
    RowGrows(t, s, c, j, Offset(j + c.y, w), i0, i);
  }

  lemma {:induction false} RowIsDrawn(s: seq<Pixel>, w: nat, h: nat, c: Cursor, j: int, i0: int, i: int)
    requires Sound(c) && |s| == Offset(h, w) && i0 <= i && Fits(c, w, h, j, i0, i)
    ensures var r := RowRun(s, w, c, j, i0, i);
      r.Some? && RowDrawn(r.value, s, c, j, Offset(j + c.y, w), i0, i)
    decreases i - i0
  {
    if i0 < i {
      RowIsDrawn(s, w, h, c, j, i0, i - 1);
      NextPixelDrawn(RowRun(s, w, c, j, i0, i - 1).value, s, w, h, c, j, i0, i - 1);
    }
  }

  lemma {:induction false} PixelComposes(u: seq<Pixel>, t: seq<Pixel>, c: Cursor, w: nat, h: nat, j: nat, i0: int, i1: int, x: nat, y: nat)
    requires Sound(c) && |t| == Offset(h, w) && Fits(c, w, h, j, i0, i1) && x < w && y < h
    requires RowDrawn(u, t, c, j, Offset(j + c.y, w), i0, i1)
    ensures PixelAt(u, w, h, x, y) ==
              if y == j + c.y && i0 <= x - c.x < i1
              then Drawn(CursorAt(c, x - c.x, j), PixelAt(t, w, h, x, y)) else PixelAt(t, w, h, x, y)
  {
    var row := j + c.y;
    OffsetOfLater(y, h, w);
    OffsetOfLater(row, h, w);
    if y < row {
      OffsetOfLater(y, row, w);
    } else if y > row {
      OffsetOfLater(row, y, w);
    }
  }

  lemma {:induction false} RowComposes(u: seq<Pixel>, t: seq<Pixel>, s: seq<Pixel>, c: Cursor, w: nat, h: nat, j: nat, i0: int, i1: int)
    requires Sound(c) && Fits(c, w, h, j, i0, i1) && ComposedTo(t, s, c, w, h, j + c.y)
    requires forall i: int :: i0 <= i < i1 <==> Inside(i, c.x, c.w, w)
    requires RowDrawn(u, t, c, j, Offset(j + c.y, w), i0, i1)
    ensures ComposedTo(u, s, c, w, h, j + c.y + 1)
  {
    var row := j + c.y;
    forall x: nat, y: nat | x < w && y < h
      ensures PixelAt(u, w, h, x, y) ==
        if y < row + 1 then Composed(c, x, y, PixelAt(s, w, h, x, y)) else PixelAt(s, w, h, x, y)
    {
      PixelComposes(u, t, c, w, h, j, i0, i1, x, y);
      assert Inside(x - c.x, c.x, c.w, w) <==> i0 <= x - c.x < i1;
    }
  }

  lemma {:induction false} NextRowComposes(t: seq<Pixel>, s: seq<Pixel>, w: nat, h: nat, c: Cursor, j: int)
    requires Sound(c) && |s| == Offset(h, w) && StartsOn(c, w, h) && Draws(c, w, h)
    requires First(c.y, c.h, h) <= j < Last(c.y, c.h, h) && ComposedTo(t, s, c, w, h, j + c.y)
    ensures var r := RowRun(t, w, c, j, First(c.x, c.w, w), Last(c.x, c.w, w));
      r.Some? && ComposedTo(r.value, s, c, w, h, j + c.y + 1)
  {
    var i0, i1 := First(c.x, c.w, w), Last(c.x, c.w, w);
    RowIsDrawn(t, w, h, c, j, i0, i1);
    RowComposes(RowRun(t, w, c, j, i0, i1).value, t, s, c, w, h, j, i0, i1);
  }

  lemma {:induction false} RowsCompose(s: seq<Pixel>, w: nat, h: nat, c: Cursor, i0: int, i1: int, j0: int, j: int)
    requires Sound(c) && |s| == Offset(h, w) && StartsOn(c, w, h) && Draws(c, w, h)
    requires i0 == First(c.x, c.w, w) && i1 == Last(c.x, c.w, w)
    requires j0 == First(c.y, c.h, h) <= j <= Last(c.y, c.h, h)
    ensures var r := AllRun(s, w, c, i0, i1, j0, j); r.Some? && ComposedTo(r.value, s, c, w, h, j + c.y)
    decreases j - j0
  {
    if j0 < j {
      RowsCompose(s, w, h, c, i0, i1, j0, j - 1);
      NextRowComposes(AllRun(s, w, c, i0, i1, j0, j - 1).value, s, w, h, c, j - 1);
    }
  }

  /** Nothing panics, and every pixel becomes what it should. */
  ghost predicate Right(s: seq<Pixel>, w: nat, h: nat, c: Cursor)
    requires Sound(c)
  {
    var r := CompositeRun(s, w, h, c);
    r.Some? && ComposedTo(r.value, s, c, w, h, h)
  }

  lemma {:induction false} StartsOnIsRight(s: seq<Pixel>, w: nat, h: nat, c: Cursor)
    requires Sound(c) && |s| == Offset(h, w) && StartsOn(c, w, h)
    ensures Right(s, w, h, c)
  {
    var i0, i1 := First(c.x, c.w, w), Last(c.x, c.w, w);
    var j0, j1 := First(c.y, c.h, h), Last(c.y, c.h, h);
    if i0 < i1 && j0 < j1 {
      RowsCompose(s, w, h, c, i0, i1, j0, j1);
    }
  }

  /** So every colour of every pixel of the picture shows what it should. */
  lemma {:induction false} EveryColourShows(s: seq<Pixel>, w: nat, h: nat, c: Cursor, x: nat, y: nat)
    requires Sound(c) && |s| == Offset(h, w) && StartsOn(c, w, h) && x < w && y < h
    ensures var r := CompositeRun(s, w, h, c); var d := PixelAt(s, w, h, x, y);
      && r.Some? && |r.value| == |s|
      && var t := PixelAt(r.value, w, h, x, y);
         if 0 <= x - c.x < c.w && 0 <= y - c.y < c.h then Shows(t, CursorAt(c, x - c.x, y - c.y), d) else t == d
  {
    StartsOnIsRight(s, w, h, c);
    assert PixelAt(CompositeRun(s, w, h, c).value, w, h, x, y) == Composed(c, x, y, PixelAt(s, w, h, x, y));
  }

  // -------------------------------------------------------------------------
  // From a corner further out
  // -------------------------------------------------------------------------

  /** The clipped ranges are nonempty in both directions. */
  predicate Draws(c: Cursor, w: nat, h: nat) {
    First(c.x, c.w, w) < Last(c.x, c.w, w) && First(c.y, c.h, h) < Last(c.y, c.h, h)
  }

  const INK := Pixel(255, 1, 1, 1)
  const INKED := Pixel(0, 1, 1, 1)

  predicate AllInk(c: Cursor) {
    forall k: nat | k < |c.pixels| :: c.pixels[k] == INK
  }

  lemma {:induction false} InkStays(s: seq<Pixel>, w: nat, c: Cursor, j: int, i: int, k: nat)
    requires Sound(c) && AllInk(c) && k < |s| && s[k] == INKED
    ensures var r := PixelRun(s, w, c, j, i); r.Some? ==> r.value[k] == INKED
  {
  }

  lemma {:induction false} InkStaysInRow(s: seq<Pixel>, w: nat, c: Cursor, j: int, i0: int, i: int, k: nat)
    requires Sound(c) && AllInk(c) && k < |s| && s[k] == INKED
    ensures var r := RowRun(s, w, c, j, i0, i); r.Some? ==> r.value[k] == INKED
    decreases i - i0
  {
    if i0 < i {
      InkStaysInRow(s, w, c, j, i0, i - 1, k);
      var t := RowRun(s, w, c, j, i0, i - 1);
      if t.Some? {
        InkStays(t.value, w, c, j, i - 1, k);
      }
    }
  }

  /** Once the first pixel of a row is inked it is so after the row. */
  lemma {:induction false} InkedByRow(s: seq<Pixel>, w: nat, c: Cursor, j: int, i0: int, i: int, k: nat)
    requires Sound(c) && AllInk(c) && k < |s| && i0 < i
    requires var r := PixelRun(s, w, c, j, i0); r.Some? ==> r.value[k] == INKED
    ensures var r := RowRun(s, w, c, j, i0, i); r.Some? ==> r.value[k] == INKED
    decreases i - i0
  {
    if i == i0 + 1 {
      assert RowRun(s, w, c, j, i0, i0) == Some(s);
    } else {
      InkedByRow(s, w, c, j, i0, i - 1, k);
      var t := RowRun(s, w, c, j, i0, i - 1);
      if t.Some? {
        InkStays(t.value, w, c, j, i - 1, k);
      }
    }
  }

  lemma {:induction false} InkedByAll(s: seq<Pixel>, w: nat, c: Cursor, i0: int, i1: int, j0: int, j: int, k: nat)
    requires Sound(c) && AllInk(c) && k < |s| && i0 < i1 && j0 < j
    requires var r := PixelRun(s, w, c, j0, i0); r.Some? ==> r.value[k] == INKED
    ensures var r := AllRun(s, w, c, i0, i1, j0, j); r.Some? ==> r.value[k] == INKED
    decreases j - j0
  {
    if j == j0 + 1 {
      assert AllRun(s, w, c, i0, i1, j0, j0) == Some(s);
      InkedByRow(s, w, c, j0, i0, i1, k);
    } else {
      InkedByAll(s, w, c, i0, i1, j0, j - 1, k);
      var t := AllRun(s, w, c, i0, i1, j0, j - 1);
      if t.Some? {
        InkStaysInRow(t.value, w, c, j - 1, i0, i1, k);
      }
    }
  }

  lemma {:induction false} FirstPixelPanics(s: seq<Pixel>, w: nat, h: nat, c: Cursor)
    requires Sound(c) && Draws(c, w, h) && PixelRun(s, w, c, First(c.y, c.h, h), First(c.x, c.w, w)).None?
    ensures CompositeRun(s, w, h, c).None?
  {
    var i0, i1 := First(c.x, c.w, w), Last(c.x, c.w, w);
    var j0, j1 := First(c.y, c.h, h), Last(c.y, c.h, h);
    assert RowRun(s, w, c, j0, i0, i0) == Some(s);
    NoneStays(s, w, c, j0, i0, i0 + 1, i1);
    assert AllRun(s, w, c, i0, i1, j0, j0) == Some(s);
    NoneStaysDown(s, w, c, i0, i1, j0, j0 + 1, j1);
  }

  /** Below the picture the first index is negative, whatever the cursor. */
  lemma {:induction false} BelowPanics(s: seq<Pixel>, w: nat, h: nat, c: Cursor)
    requires Sound(c) && Draws(c, w, h) && c.y > h
    ensures CompositeRun(s, w, h, c).None?
  {
    var i0, j0 := First(c.x, c.w, w), First(c.y, c.h, h);
    assert j0 <= -1 && (i0 < 0 || i0 < c.w);
    assert j0 * c.w <= -1 * c.w;
    FirstPixelPanics(s, w, h, c);
  }

  lemma {:induction false} InkedIsWrong(s: seq<Pixel>, t: seq<Pixel>, w: nat, h: nat, c: Cursor)
    requires Sound(c) && |s| == Offset(h, w) == |t| && w < |s| && c.x > w && s[w] != INKED && t[w] == INKED
    ensures !ComposedTo(t, s, c, w, h, h)
  {
    SecondRow(h, w);
    assert PixelAt(t, w, h, 0, 1) == INKED;
    assert Composed(c, 0, 1, PixelAt(s, w, h, 0, 1)) == PixelAt(s, w, h, 0, 1);
  }

  lemma {:induction false} FirstGoesToNextRow(s: seq<Pixel>, w: nat, c: Cursor, j: int, i: int)
    requires Sound(c) && AllInk(c) && i + c.x == w && j + c.y == 0 && PixelRun(s, w, c, j, i).Some?
    ensures w < |s| && PixelRun(s, w, c, j, i).value[w] == INKED
  {
    var row := j + c.y;
    assert row * w == 0;
  }

  /** It is the top row, as the first index is not negative. */
  lemma {:induction false} FirstRowIsTop(s: seq<Pixel>, w: nat, h: nat, c: Cursor)
    requires Sound(c) && Draws(c, w, h) && c.x > w && c.y <= h
    requires PixelRun(s, w, c, First(c.y, c.h, h), First(c.x, c.w, w)).Some?
    ensures First(c.x, c.w, w) + c.x == w && First(c.y, c.h, h) + c.y == 0
  {
    var i0, j0 := First(c.x, c.w, w), First(c.y, c.h, h);
    assert j0 * c.w + i0 >= 0;
  }

  /** Right of the picture the first pixel goes to the start of the next row, if it does not panic. */
  lemma {:induction false} RightOfPictureIsWrong(s: seq<Pixel>, w: nat, h: nat, c: Cursor)
    requires Sound(c) && |s| == Offset(h, w) && Draws(c, w, h) && c.x > w && c.y <= h
    requires AllInk(c) && forall k: nat | k < |s| :: s[k] != INKED
    ensures !Right(s, w, h, c)
  {
    var i0, i1 := First(c.x, c.w, w), Last(c.x, c.w, w);
    var j0, j1 := First(c.y, c.h, h), Last(c.y, c.h, h);
    if PixelRun(s, w, c, j0, i0).None? {
      FirstPixelPanics(s, w, h, c);
    } else {
      FirstRowIsTop(s, w, h, c);
      FirstGoesToNextRow(s, w, c, j0, i0);
      InkedByAll(s, w, c, i0, i1, j0, j1, w);
      var r := CompositeRun(s, w, h, c);
      if r.Some? {
        InkedIsWrong(s, r.value, w, h, c);
      }
    }
  }

  lemma {:induction false} SecondRow(h: nat, w: nat)
    requires w < Offset(h, w)
    ensures w > 0 && h > 1 && Offset(1, w) == w
  {
    if h == 1 {
      assert Offset(1, w) == Offset(0, w) + w;
    }
    OffsetIsProduct(h, w);
    assert Offset(1, w) == Offset(0, w) + w;
  }

  /**
    For a cursor and a picture of given sizes and places: whatever their pixels, the cursor is drawn
    right, if and only if it starts no further right or down than the edge, or the clip leaves nothing.
  */
  lemma {:induction false} CompositeIsRightExactly(w: nat, h: nat, c: Cursor)
    requires Sound(c)
    ensures StartsOn(c, w, h) || !Draws(c, w, h) <==>
              forall pixels: seq<Pixel>, s: seq<Pixel> |
                Sound(c.(pixels := pixels)) && |s| == Offset(h, w) :: Right(s, w, h, c.(pixels := pixels))
  {
    if StartsOn(c, w, h) || !Draws(c, w, h) {
      forall pixels: seq<Pixel>, s: seq<Pixel> | Sound(c.(pixels := pixels)) && |s| == Offset(h, w)
        ensures Right(s, w, h, c.(pixels := pixels))
      {
        if StartsOn(c, w, h) {
          StartsOnIsRight(s, w, h, c.(pixels := pixels));
        } else {
          NothingDrawn(s, w, h, c.(pixels := pixels));
        }
      }
    } else {
      var pixels := seq(|c.pixels|, _ => INK);
      var s := seq(Offset(h, w), _ => Pixel(0, 0, 0, 0));
      var d := c.(pixels := pixels);
      assert Sound(d) && AllInk(d);
      if c.y > h {
        BelowPanics(s, w, h, d);
      } else {
        RightOfPictureIsWrong(s, w, h, d);
      }
      assert !Right(s, w, h, d);
    }
  }

  lemma {:induction false} NothingDrawn(s: seq<Pixel>, w: nat, h: nat, c: Cursor)
    requires Sound(c) && |s| == Offset(h, w) && !StartsOn(c, w, h) && !Draws(c, w, h)
    ensures Right(s, w, h, c)
  {
  }
}
