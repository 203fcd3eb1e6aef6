/**
  The test source: a picture of colour bars with a moving band of gradient, redrawn
  band by band instead of whole.
*/
module TestSource {
  import opened Prelude
  import opened Offsets

  datatype PixelFormat = BGR0 | RGB0 | RGB

  datatype TestCapturable = TestCapturable(width: nat, height: nat, format: PixelFormat)

  datatype Colour = Colour(r: Byte, g: Byte, b: Byte)

  const N := 120

  // -------------------------------------------------------------------------
  // The picture
  // -------------------------------------------------------------------------

  /** The bytes of `n` pixels. */
  function Span(f: PixelFormat, n: nat): nat {
    if f == RGB then 3 * n else 4 * n
  }

  function Bytes(f: PixelFormat, c: Colour): (bs: seq<Byte>)
    ensures |bs| == Span(f, 1)
  {
    match f
    case BGR0 => [c.b, c.g, c.r, 0]
    case RGB0 => [c.r, c.g, c.b, 0]
    case RGB => [c.r, c.g, c.b]
  }

  function Bar(on: bool): Byte {
    if on then 255 else 0
  }

  function Bars(x: nat, w: nat): Colour
    requires x < w
  {
    var i := x * 8 / w;
    Colour(Bar(i / 4 % 2 == 1), Bar(i / 2 % 2 == 1), Bar(i % 2 == 1))
  }

  function Level(n: nat): Byte {
    n % N * 256 / N
  }

  function Gradient(i: nat, x: nat, w: nat): Colour
    requires x < w
  {
    var at := i + N * x / w;
    Colour(Level(at + 2 * N / 3), Level(at + N / 3), Level(at))
  }

  datatype Row = Plain | Shaded(i: nat)

  function ColourOf(row: Row, x: nat, w: nat): Colour
    requires x < w
  {
    match row
    case Plain => Bars(x, w)
    case Shaded(i) => Gradient(i, x, w)
  }

  /** The first `n` pixels of a row. */
  function Pixels(c: TestCapturable, row: Row, n: nat): (bs: seq<Byte>)
    requires n <= c.width
    ensures |bs| == Span(c.format, n)
  {
    if n == 0 then [] else Pixels(c, row, n - 1) + Bytes(c.format, ColourOf(row, n - 1, c.width))
  }

  function RowSize(c: TestCapturable): nat {
    Span(c.format, c.width)
  }

  function Whole(c: TestCapturable, row: Row): (bs: seq<Byte>)
    ensures |bs| == RowSize(c)
  {
    Pixels(c, row, c.width)
  }

  predicate InBand(c: TestCapturable, i: nat, y: nat) {
    Offset(i, c.height / N) <= y < Offset(i + 1, c.height / N)
  }

  /** What row `y` shows after `n` captures: bars, or the gradient in the band whose turn it is. */
  function RowAfter(c: TestCapturable, n: nat, y: nat): Row {
    if n > 0 && InBand(c, n % N, y) then Shaded(n % N) else Plain
  }

  /** The first `h` rows after `n` captures, drawn whole. */
  function Picture(c: TestCapturable, n: nat, h: nat): (bs: seq<Byte>)
    ensures |bs| == Offset(h, RowSize(c))
  {
    if h == 0 then [] else Picture(c, n, h - 1) + Whole(c, RowAfter(c, n, h - 1))
  }

  // -------------------------------------------------------------------------
  // Rows of a buffer
  // -------------------------------------------------------------------------

  function RowOf(s: seq<Byte>, h: nat, size: nat, y: nat): (row: seq<Byte>)
    requires |s| == Offset(h, size) && y < h
    ensures |row| == size
  {
    OffsetOfLater(y, h, size);
    s[Offset(y, size)..Offset(y, size) + size]
  }

  /** The bytes with one row replaced. */
  predicate WithRow(t: seq<Byte>, s: seq<Byte>, start: nat, row: seq<Byte>) {
    start + |row| <= |s| && t == s[..start] + row + s[start + |row|..]
  }

  lemma {:induction false} PartsOfWithRow(t: seq<Byte>, s: seq<Byte>, start: nat, row: seq<Byte>)
    requires WithRow(t, s, start, row)
    ensures |t| == |s| && t[..start] == s[..start]
    ensures t[start..start + |row|] == row
    ensures t[start + |row|..] == s[start + |row|..]
  {
  }

  lemma {:induction false} OtherRow(s: seq<Byte>, t: seq<Byte>, h: nat, size: nat, y0: nat, row: seq<Byte>, y: nat)
    requires |s| == Offset(h, size) && y0 < h && y < h && |row| == size
    requires WithRow(t, s, Offset(y0, size), row)
    ensures |t| == |s| && RowOf(t, h, size, y) == if y == y0 then row else RowOf(s, h, size, y)
  {
    PartsOfWithRow(t, s, Offset(y0, size), row);
    OffsetOfLater(y, h, size);
    OffsetOfLater(y0, h, size);
    if y < y0 {
      OffsetOfLater(y, y0, size);
      SliceOfFront(t, s[..Offset(y0, size)], Offset(y, size), size);
      SliceOfFront(s, s[..Offset(y0, size)], Offset(y, size), size);
    } else if y > y0 {
      OffsetOfLater(y0, y, size);
      SliceBehind(t, s, Offset(y0, size) + size, Offset(y, size), size);
    }
  }

  predicate RowsAre(s: seq<Byte>, c: TestCapturable, n: nat, h: nat) {
    && |s| == Offset(h, RowSize(c))
    && forall y: nat | y < h :: RowOf(s, h, RowSize(c), y) == Whole(c, RowAfter(c, n, y))
  }

  lemma {:induction false} FrontRowsAre(s: seq<Byte>, c: TestCapturable, n: nat, h: nat)
    requires h > 0 && RowsAre(s, c, n, h)
    ensures RowsAre(s[..Offset(h - 1, RowSize(c))], c, n, h - 1)
  {
    FrontRows(s, h, RowSize(c));
  }

  lemma {:induction false} LastRow(s: seq<Byte>, h: nat, size: nat)
    requires h > 0 && |s| == Offset(h, size)
    ensures s == s[..Offset(h - 1, size)] + RowOf(s, h, size, h - 1)
  {
  }

  /** A buffer is the picture when its rows are those of the picture... */
  lemma {:induction false} RowsMakePicture(s: seq<Byte>, c: TestCapturable, n: nat, h: nat)
    requires RowsAre(s, c, n, h)
    ensures s == Picture(c, n, h)
    decreases h
  {
    if h > 0 {
      FrontRowsAre(s, c, n, h);
      RowsMakePicture(s[..Offset(h - 1, RowSize(c))], c, n, h - 1);
      LastRow(s, h, RowSize(c));
    }
  }

  /** ... and only then. */
  lemma {:induction false} PictureHasRows(c: TestCapturable, n: nat, h: nat)
    ensures RowsAre(Picture(c, n, h), c, n, h)
    decreases h
  {
    if h > 0 {
      var s, front := Picture(c, n, h), Picture(c, n, h - 1);
      PictureHasRows(c, n, h - 1);
      FrontRows(s, h, RowSize(c));
      assert s[..|front|] == front;
      forall y: nat | y < h ensures RowOf(s, h, RowSize(c), y) == Whole(c, RowAfter(c, n, y)) {
        if y < h - 1 {
          assert RowOf(front, h - 1, RowSize(c), y) == Whole(c, RowAfter(c, n, y));
        } else {
          assert s[|front|..] == Whole(c, RowAfter(c, n, y));
        }
      }
    }
  }

  lemma {:induction false} FrontRows(s: seq<Byte>, h: nat, size: nat)
    requires h > 0 && |s| == Offset(h, size)
    ensures forall y: nat | y < h - 1 :: RowOf(s[..Offset(h - 1, size)], h - 1, size, y) == RowOf(s, h, size, y)
  {
    forall y: nat | y < h - 1
      ensures RowOf(s[..Offset(h - 1, size)], h - 1, size, y) == RowOf(s, h, size, y)
    {
      OffsetOfLater(y, h - 1, size);
    }
  }

  // -------------------------------------------------------------------------
  // Drawing
  // -------------------------------------------------------------------------

  /** The fourth bytes, which are never written, are zero. */
  predicate Padded(f: PixelFormat, row: seq<Byte>) {
    f != RGB ==> forall k: nat | k < |row| && 4 * k + 3 < |row| :: row[4 * k + 3] == 0
  }

  lemma {:induction false} PixelsArePadded(c: TestCapturable, row: Row, n: nat)
    requires n <= c.width
    ensures Padded(c.format, Pixels(c, row, n))
  {
    if n > 0 && c.format != RGB {
      PixelsArePadded(c, row, n - 1);
      var front, last := Pixels(c, row, n - 1), Bytes(c.format, ColourOf(row, n - 1, c.width));
      assert last[3] == 0;
      forall k: nat | k < |front + last| && 4 * k + 3 < |front + last| ensures (front + last)[4 * k + 3] == 0 {
        assert k < n - 1 ==> front[4 * k + 3] == 0;
      }
    }
  }

  method SetPixel(buf: array<Byte>, f: PixelFormat, pos: nat, c: Colour)
    requires pos + Span(f, 1) <= buf.Length && (f != RGB ==> buf[pos + 3] == 0)
    modifies buf
    ensures buf[..] == old(buf[..pos]) + Bytes(f, c) + old(buf[pos + Span(f, 1)..])
  {
    var r, g, b := pos, pos + 1, pos + 2;
    if f == BGR0 {
      r, b := pos + 2, pos;
    }
    buf[b] := c.b;
    buf[g] := c.g;
    buf[r] := c.r;
  }

  lemma {:induction false} PixelAppends(s: seq<Byte>, t: seq<Byte>, u: seq<Byte>, start: nat, row: seq<Byte>, p: seq<Byte>)
    requires WithRow(t, s, start, row) && start + |row| + |p| <= |s|
    requires WithRow(u, t, start + |row|, p)
    ensures WithRow(u, s, start, row + p)
  {
    var at := start + |row|;
    assert t[..at] == s[..start] + row;
    assert t[at + |p|..] == s[at + |p|..];
    assert u == s[..start] + (row + p) + s[at + |p|..];
  }

  /** The position of a pixel, as computed for each. */
  lemma {:induction false} PositionOf(c: TestCapturable, x: nat, y: nat)
    ensures (x + y * c.width) * Span(c.format, 1) == Offset(y, RowSize(c)) + Span(c.format, x)
  {
    OffsetIsProduct(y, RowSize(c));
    var w, yw := c.width, y * c.width;
    if c.format == RGB {
      assert y * (3 * w) == 3 * yw;
    } else {
      assert y * (4 * w) == 4 * yw;
    }
  }

  lemma {:induction false} PadOfPixel(s: seq<Byte>, c: TestCapturable, y: nat, x: nat)
    requires y < c.height && x < c.width && c.format != RGB && |s| == Offset(c.height, RowSize(c))
    requires Padded(c.format, RowOf(s, c.height, RowSize(c), y))
    ensures Offset(y, RowSize(c)) + RowSize(c) <= |s|
    ensures s[Offset(y, RowSize(c)) + Span(c.format, x) + 3] == 0
  {
    OffsetOfLater(y, c.height, RowSize(c));
    assert RowOf(s, c.height, RowSize(c), y)[4 * x + 3] == 0;
  }

  method Position(c: TestCapturable, x: nat, y: nat) returns (pos: nat)
    ensures pos == Offset(y, RowSize(c)) + Span(c.format, x)
  {
    PositionOf(c, x, y);
    return (x + y * c.width) * Span(c.format, 1);
  }

  /** Row `y` of `was` drawn up to pixel `x`. */
  ghost predicate Drawn(s: seq<Byte>, was: seq<Byte>, c: TestCapturable, y: nat, row: Row, x: nat)
    requires x <= c.width
  {
    WithRow(s, was, Offset(y, RowSize(c)), Pixels(c, row, x))
  }

  ghost predicate Drawable(was: seq<Byte>, c: TestCapturable, y: nat) {
    && y < c.height && |was| == Offset(c.height, RowSize(c))
    && Padded(c.format, RowOf(was, c.height, RowSize(c), y))
  }

  method DrawPixel(buf: array<Byte>, c: TestCapturable, y: nat, row: Row, x: nat, ghost was: seq<Byte>)
    requires x < c.width && Drawable(was, c, y) && Drawn(buf[..], was, c, y, row, x)
    modifies buf
    ensures Drawn(buf[..], was, c, y, row, x + 1)
  {
    var pos := Position(c, x, y);
    ghost var start := Offset(y, RowSize(c));
    OffsetOfLater(y, c.height, RowSize(c));
    if c.format != RGB {
      PadOfPixel(was, c, y, x);
    }
    var colour := ColourOf(row, x, c.width);
    ghost var before, p := buf[..], Bytes(c.format, colour);
    assert c.format != RGB ==> before[pos + 3] == was[pos + 3];
    SetPixel(buf, c.format, pos, colour);
    assert WithRow(buf[..], before, pos, p);
    PixelAppends(was, before, buf[..], start, Pixels(c, row, x), p);
  }

  method DrawRow(buf: array<Byte>, c: TestCapturable, y: nat, row: Row)
    requires Drawable(buf[..], c, y)
    modifies buf
    ensures WithRow(buf[..], old(buf[..]), Offset(y, RowSize(c)), Whole(c, row))
  {
    ghost var was := buf[..];
    OffsetOfLater(y, c.height, RowSize(c));
    for x := 0 to c.width
      invariant Drawn(buf[..], was, c, y, row, x)
    {
      DrawPixel(buf, c, y, row, x, was);
    }
  }

  /** Every row can be drawn on. */
  predicate AllPadded(s: seq<Byte>, c: TestCapturable) {
    && |s| == Offset(c.height, RowSize(c))
    && forall y: nat | y < c.height :: Padded(c.format, RowOf(s, c.height, RowSize(c), y))
  }

  /** Rows `from` to `to` show `row`, the others what they did. */
  predicate Redrawn(t: seq<Byte>, s: seq<Byte>, c: TestCapturable, from: nat, to: nat, row: Row) {
    && |s| == |t| == Offset(c.height, RowSize(c))
    && forall y: nat | y < c.height :: RowOf(t, c.height, RowSize(c), y) ==
         if from <= y < to then Whole(c, row) else RowOf(s, c.height, RowSize(c), y)
  }

  lemma {:induction false} RedrawnOneMore(u: seq<Byte>, t: seq<Byte>, s: seq<Byte>, c: TestCapturable, from: nat, y0: nat, row: Row)
    requires from <= y0 < c.height && Redrawn(t, s, c, from, y0, row)
    requires WithRow(u, t, Offset(y0, RowSize(c)), Whole(c, row))
    ensures Redrawn(u, s, c, from, y0 + 1, row)
  {
    forall y: nat | y < c.height
      ensures |u| == |s| && RowOf(u, c.height, RowSize(c), y) ==
        if from <= y < y0 + 1 then Whole(c, row) else RowOf(s, c.height, RowSize(c), y)
    {
      OtherRow(t, u, c.height, RowSize(c), y0, Whole(c, row), y);
    }
  }

  method DrawRows(buf: array<Byte>, c: TestCapturable, from: nat, to: nat, row: Row)
    requires from <= to <= c.height && AllPadded(buf[..], c)
    modifies buf
    ensures Redrawn(buf[..], old(buf[..]), c, from, to, row)
    ensures AllPadded(buf[..], c)
  {
    ghost var was := buf[..];
    PixelsArePadded(c, row, c.width);
    for y := from to to
      invariant Redrawn(buf[..], was, c, from, y, row)
    {
      ghost var before := buf[..];
      assert Padded(c.format, RowOf(was, c.height, RowSize(c), y));
      assert RowOf(before, c.height, RowSize(c), y) == RowOf(was, c.height, RowSize(c), y);
      DrawRow(buf, c, y, row);
      RedrawnOneMore(buf[..], before, was, c, from, y, row);
    }
  }

  // -------------------------------------------------------------------------
  // The recorder
  // -------------------------------------------------------------------------

  lemma {:induction false} BandInside(c: TestCapturable, i: nat)
    requires i < N
    ensures Offset(i, c.height / N) <= Offset(i + 1, c.height / N) <= c.height
  {
    OffsetOfLater(i, i + 1, c.height / N);
    OffsetOfLater(i + 1, N, c.height / N);
    OffsetIsProduct(N, c.height / N);
  }

  /** The rows after one more capture: the old band is bars again, the new one gradient. */
  lemma {:induction false} NextPicture(s: seq<Byte>, t: seq<Byte>, u: seq<Byte>, c: TestCapturable, n: nat, i: nat, j: nat)
    requires s == Picture(c, n, c.height) && i == n % N && j == (n + 1) % N
    requires Redrawn(t, s, c, Offset(i, c.height / N), Offset(i + 1, c.height / N), Plain)
    requires Redrawn(u, t, c, Offset(j, c.height / N), Offset(j + 1, c.height / N), Shaded(j))
    ensures u == Picture(c, n + 1, c.height)
  {
    PictureHasRows(c, n, c.height);
    forall y: nat | y < c.height
      ensures RowOf(u, c.height, RowSize(c), y) == Whole(c, RowAfter(c, n + 1, y))
    {
      assert RowOf(s, c.height, RowSize(c), y) == Whole(c, RowAfter(c, n, y));
      assert RowOf(t, c.height, RowSize(c), y) == Whole(c, Plain);
    }
    RowsMakePicture(u, c, n + 1, c.height);
  }

  lemma {:induction false} PictureIsPadded(c: TestCapturable, n: nat)
    ensures AllPadded(Picture(c, n, c.height), c)
  {
    PictureHasRows(c, n, c.height);
    forall y: nat | y < c.height
      ensures Padded(c.format, RowOf(Picture(c, n, c.height), c.height, RowSize(c), y))
    {
      PixelsArePadded(c, RowAfter(c, n, y), c.width);
    }
  }

  lemma {:induction false} NextIndex(n: nat)
    ensures (n % N + 1) % N == (n + 1) % N
  {
  }

  method DrawBand(buf: array<Byte>, c: TestCapturable, i: nat, row: Row)
    requires i < N && AllPadded(buf[..], c)
    modifies buf
    ensures Redrawn(buf[..], old(buf[..]), c, Offset(i, c.height / N), Offset(i + 1, c.height / N), row)
    ensures AllPadded(buf[..], c)
  {
    var dh := c.height / N;
    BandInside(c, i);
    OffsetIsProduct(i, dh);
    OffsetIsProduct(i + 1, dh);
    DrawRows(buf, c, i * dh, (i + 1) * dh, row);
  }

  /** The band that shows is drawn over with bars, and the next one shown. */
  method MoveBand(buf: array<Byte>, c: TestCapturable, i: nat, ghost n: nat) returns (next: nat)
    requires i == n % N && buf[..] == Picture(c, n, c.height)
    modifies buf
    ensures next == (n + 1) % N && buf[..] == Picture(c, n + 1, c.height)
  {
    ghost var before := buf[..];
    PictureIsPadded(c, n);
    DrawBand(buf, c, i, Plain);
    ghost var between := buf[..];
    NextIndex(n);
    next := (i + 1) % N;
    DrawBand(buf, c, next, Shaded(next));
    NextPicture(before, between, buf[..], c, n, i, next);
  }

  class TestRecorder {
    const capturable: TestCapturable
    const buf: array<Byte>
    var i: nat
    ghost var captures: nat

    /** The buffer is the whole picture of its captures. */
    ghost predicate Valid()
      reads this, buf
    {
      i == captures % N && buf[..] == Picture(capturable, captures, capturable.height)
    }

    constructor (c: TestCapturable)
      ensures Valid() && capturable == c && captures == 0 && fresh(buf)
    {
      capturable := c;
      OffsetIsProduct(c.height, RowSize(c));
      var bytes := new Byte[c.height * RowSize(c)](_ => 0);
      AllZeroIsPadded(bytes[..], c);
      DrawRows(bytes, c, 0, c.height, Plain);
      RowsMakePicture(bytes[..], c, 0, c.height);
      buf := bytes;
      i := 0;
      captures := 0;
    }

    method Capture()
      requires Valid()
      modifies this, buf
      ensures Valid() && captures == old(captures) + 1
    {
      i := MoveBand(buf, capturable, i, captures);
      captures := captures + 1;
    }
  }

  lemma {:induction false} AllZeroIsPadded(s: seq<Byte>, c: TestCapturable)
    requires |s| == Offset(c.height, RowSize(c)) && forall k: nat | k < |s| :: s[k] == 0
    ensures AllPadded(s, c)
  {
    forall y: nat | y < c.height ensures Padded(c.format, RowOf(s, c.height, RowSize(c), y)) {
      OffsetOfLater(y, c.height, RowSize(c));
    }
  }

  // -------------------------------------------------------------------------
  // What a reader sees
  // -------------------------------------------------------------------------

  /** These bytes stand at this place. */
  predicate Stands(s: seq<Byte>, at: nat, p: seq<Byte>) {
    at + |p| <= |s| && s[at..at + |p|] == p
  }

  lemma {:induction false} StandsInRow(s: seq<Byte>, start: nat, row: seq<Byte>, at: nat, p: seq<Byte>)
    requires Stands(s, start, row) && Stands(row, at, p)
    ensures Stands(s, start + at, p)
  {
    SliceOfSlice(s, row, start, at, |p|);
  }

  lemma {:induction false} StandsLonger(s: seq<Byte>, t: seq<Byte>, at: nat, p: seq<Byte>)
    requires Stands(s, at, p)
    ensures Stands(s + t, at, p)
  {
    assert (s + t)[..|s|] == s;
    SliceOfFront(s + t, s, at, |p|);
  }

  lemma {:induction false} StandsAtEnd(s: seq<Byte>, p: seq<Byte>)
    ensures Stands(s + p, |s|, p)
  {
  }

  /** Pixel `x` of the first n, whatever the bytes of a pixel are. */
  lemma {:induction false} PixelOfRow(c: TestCapturable, row: Row, n: nat, x: nat, p: seq<Byte>)
    requires x < n <= c.width && p == Bytes(c.format, ColourOf(row, x, c.width))
    ensures Stands(Pixels(c, row, n), Span(c.format, x), p)
  {
    var front, last := Pixels(c, row, n - 1), Bytes(c.format, ColourOf(row, n - 1, c.width));
    if x < n - 1 {
      PixelOfRow(c, row, n - 1, x, p);
      StandsLonger(front, last, Span(c.format, x), p);
    } else {
      StandsAtEnd(front, p);
    }
  }

  lemma {:induction false} RowOfPicture(c: TestCapturable, n: nat, y: nat)
    requires y < c.height
    ensures Stands(Picture(c, n, c.height), Offset(y, RowSize(c)), Whole(c, RowAfter(c, n, y)))
  {
    PictureHasRows(c, n, c.height);
    OffsetOfLater(y, c.height, RowSize(c));
    assert RowOf(Picture(c, n, c.height), c.height, RowSize(c), y) == Whole(c, RowAfter(c, n, y));
  }

  /** Pixel (x, y) after any number of captures: gradient exactly in the band of the last, bars elsewhere. */
  lemma {:induction false} PixelAfterCaptures(c: TestCapturable, n: nat, x: nat, y: nat)
    requires x < c.width && y < c.height
    ensures Stands(Picture(c, n, c.height), Offset(y, RowSize(c)) + Span(c.format, x),
                   Bytes(c.format, if n > 0 && InBand(c, n % N, y) then Gradient(n % N, x, c.width) else Bars(x, c.width)))
  {
    var row := RowAfter(c, n, y);
    RowOfPicture(c, n, y);
    PixelOfRow(c, row, c.width, x, Bytes(c.format, ColourOf(row, x, c.width)));
    StandsInRow(Picture(c, n, c.height), Offset(y, RowSize(c)), Whole(c, row), Span(c.format, x),
                Bytes(c.format, ColourOf(row, x, c.width)));
  }

  /** The colour a reader of this format finds in the bytes of a pixel. */
  function Read(f: PixelFormat, bs: seq<Byte>): Colour
    requires |bs| == Span(f, 1)
  {
    if f == BGR0 then Colour(bs[2], bs[1], bs[0]) else Colour(bs[0], bs[1], bs[2])
  }

  lemma {:induction false} ReadPrinted(f: PixelFormat, c: Colour)
    ensures Read(f, Bytes(f, c)) == c
  {
  }

  /** The colour of pixel (x, y) after `n` captures, read from the buffer. */
  function ColourAfter(c: TestCapturable, n: nat, x: nat, y: nat): Colour
    requires x < c.width && y < c.height
  {
    PixelAfterCaptures(c, n, x, y);
    var at := Offset(y, RowSize(c)) + Span(c.format, x);
    Read(c.format, Picture(c, n, c.height)[at..at + Span(c.format, 1)])
  }

  /** Bar `i` of the eight holds the pixels from `i` eighths of the width on; its three bits are its colours. */
  predicate InBar(i: nat, x: nat, w: nat) {
    i * w <= 8 * x < (i + 1) * w
  }

  predicate IsBar(t: Colour, i: nat) {
    && t.r == (if i >= 4 then 255 else 0)
    && t.g == (if i == 2 || i == 3 || i >= 6 then 255 else 0)
    && t.b == (if i == 1 || i == 3 || i == 5 || i == 7 then 255 else 0)
  }

  /** Step `k` of 120 across the width. */
  predicate InStep(k: nat, x: nat, w: nat) {
    k * w <= N * x < (k + 1) * w
  }

  /** The brightness of step `n` of a ramp of 120 steps that starts over at its end. */
  predicate OnRamp(level: int, n: nat) {
    120 * level <= 256 * (n % 120) < 120 * (level + 1)
  }

  lemma {:induction false} QuotientIs(a: nat, w: nat, q: nat)
    requires q * w <= a < (q + 1) * w
    ensures w > 0 && a / w == q
  {
    var d := a / w;
    assert d * w <= a < (d + 1) * w;
    InOrder(d, q, w);
    InOrder(q, d, w);
  }

  lemma {:induction false} InOrder(p: nat, q: nat, w: nat)
    ensures p < q ==> (p + 1) * w <= q * w
  {
  }

  lemma {:induction false} BarOf(i: nat, x: nat, w: nat)
    requires x < w && InBar(i, x, w)
    ensures i < 8 && IsBar(Bars(x, w), i)
  {
    QuotientIs(8 * x, w, i);
    InOrder(7, i, w);
  }

  lemma {:induction false} StepsOf(i: nat, k: nat, x: nat, w: nat)
    requires x < w && InStep(k, x, w)
    ensures var t := Gradient(i, x, w); OnRamp(t.b, i + k) && OnRamp(t.g, i + k + 40) && OnRamp(t.r, i + k + 80)
  {
    QuotientIs(N * x, w, k);
    LevelOnRamp(i + k);
    LevelOnRamp(i + k + N / 3);
    LevelOnRamp(i + k + 2 * N / 3);
  }

  lemma {:induction false} ColourIs(c: TestCapturable, n: nat, x: nat, y: nat)
    requires x < c.width && y < c.height
    ensures ColourAfter(c, n, x, y) ==
              if n > 0 && InBand(c, n % N, y) then Gradient(n % N, x, c.width) else Bars(x, c.width)
  {
    PixelAfterCaptures(c, n, x, y);
    ReadPrinted(c.format, if n > 0 && InBand(c, n % N, y) then Gradient(n % N, x, c.width) else Bars(x, c.width));
  }

  lemma {:induction false} LevelOnRamp(n: nat)
    ensures OnRamp(Level(n), n)
  {
  }

  /** Outside of the band of the last capture the bars show. */
  lemma {:induction false} BarsShow(c: TestCapturable, n: nat, x: nat, y: nat, i: nat)
    requires x < c.width && y < c.height && InBar(i, x, c.width)
    requires n == 0 || !InBand(c, n % N, y)
    ensures i < 8 && IsBar(ColourAfter(c, n, x, y), i)
  {
    ColourIs(c, n, x, y);
    BarOf(i, x, c.width);
  }

  /** In it each colour is a ramp across the width, the colours a third apart, one step on with every capture. */
  lemma {:induction false} RampsShow(c: TestCapturable, n: nat, x: nat, y: nat, k: nat)
    requires x < c.width && y < c.height && InStep(k, x, c.width)
    requires n > 0 && InBand(c, n % N, y)
    ensures var t := ColourAfter(c, n, x, y);
      OnRamp(t.b, n % 120 + k) && OnRamp(t.g, n % 120 + k + 40) && OnRamp(t.r, n % 120 + k + 80)
  {
    ColourIs(c, n, x, y);
    StepsOf(n % N, k, x, c.width);
  }

  /** The bands of different captures of one round share no row, so exactly one shows at a time. */
  lemma {:induction false} BandsAreDisjoint(c: TestCapturable, i: nat, j: nat, y: nat)
    requires InBand(c, i, y) && InBand(c, j, y)
    ensures i == j
  {
    if i < j {
      OffsetOfLater(i + 1, j, c.height / N);
    } else if j < i {
      OffsetOfLater(j + 1, i, c.height / N);
    }
  }
}
