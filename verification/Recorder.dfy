/**
  The PipeWire recorder: frames delivered by the stream are swapped in by `capture`,
  and served again while no new one comes.
*/
module Recorder {
  import opened Prelude
  import opened Offsets
  import opened Depad

  datatype Format = BGRx | BGRA | RGBx | RGBA | Other

  /** A pixel buffer with the size, stride and format it is read with. */
  datatype Frame = Frame(data: seq<Byte>, width: nat, height: nat, stride: nat, format: Format)

  const NO_PIXELS := Frame([], 0, 0, 0, Other)

  /** What a capture hands out. */
  datatype Provider =
    | Bgr0(width: nat, height: nat, data: seq<Byte>)
    | Bgr0S(width: nat, height: nat, stride: nat, data: seq<Byte>)
    | Rgb0(width: nat, height: nat, data: seq<Byte>)

  datatype Outcome = Pixels(provider: Provider) | StreamError | NoBuffer | Unsupported | Panic

  /** Four bytes a pixel in the formats known, none in others. */
  function RowBytes(width: nat, format: Format): nat {
    if format == Other then 0 else width * 4
  }

  function Tight(f: Frame): nat {
    RowBytes(f.width, f.format)
  }

  predicate Swapped(f: Frame) {
    f.format == RGBx || f.format == RGBA
  }

  /** What serving a frame leaves of it.  Only the formats without a strided reader are compacted. */
  function Kept(f: Frame): Frame {
    if !Swapped(f) then f
    else if f.stride == Tight(f) then f
    else if RowsFit(|f.data|, f.height, f.stride, Tight(f)) then
      f.(data := Depadded(f.data, f.height, f.stride, Tight(f)), stride := Tight(f))
    else f
  }

  function Served(f: Frame): Outcome {
    match f.format
    case BGRx | BGRA =>
      if f.stride == Tight(f) then Pixels(Bgr0(f.width, f.height, f.data))
      else Pixels(Bgr0S(f.width, f.height, f.stride, f.data))
    case RGBx | RGBA =>
      if f.stride == Tight(f) || RowsFit(|f.data|, f.height, f.stride, Tight(f)) then
        Pixels(Rgb0(f.width, f.height, Kept(f).data))
      else Panic
    case Other => Unsupported
  }

  // -------------------------------------------------------------------------
  // The states of the recorder
  // -------------------------------------------------------------------------

  /** `shared`: what the stream's callbacks write; `own`: what captures serve. */
  datatype Rec = Rec(own: Frame, hasFrame: bool, shared: Frame, newFrame: bool, streamError: bool)

  const OPENED := Rec(NO_PIXELS, false, NO_PIXELS, false, false)

  datatype Event =
    | Format(width: nat, height: nat, format: Format)
    | Deliver(data: seq<Byte>, stride: nat)
    | Fail
    | Capture

  /** Without a stride of its own a delivery has tight rows. */
  function StrideOf(r: Rec, stride: nat): nat {
    if stride > 0 then stride else Tight(r.shared)
  }

  /** A delivery counts when its format is known and every row is there with its stride. */
  predicate Accepted(r: Rec, data: seq<Byte>, stride: nat) {
    && data != [] && r.shared.format != Other
    && |data| >= StrideOf(r, stride) * r.shared.height
  }

  function Delivered(r: Rec, data: seq<Byte>, stride: nat): Rec {
    if Accepted(r, data, stride) then
      r.(shared := r.shared.(data := data, stride := StrideOf(r, stride)), newFrame := true)
    else r
  }

  function SwapIn(r: Rec): Rec {
    if r.newFrame then Rec(r.shared, true, r.shared.(data := []), false, r.streamError) else r
  }

  function AfterCapture(r: Rec): Rec {
    if r.streamError then r
    else
      var s := SwapIn(r);
      if s.hasFrame then s.(own := Kept(s.own)) else s
  }

  function CaptureOf(r: Rec): Outcome {
    if r.streamError then StreamError
    else if !SwapIn(r).hasFrame then NoBuffer
    else Served(SwapIn(r).own)
  }

  function Apply(r: Rec, e: Event): Rec {
    match e
    case Format(w, h, format) => r.(shared := r.shared.(width := w, height := h, format := format))
    case Deliver(data, stride) => Delivered(r, data, stride)
    case Fail => r.(streamError := true)
    case Capture => AfterCapture(r)
  }

  function Run(r: Rec, es: seq<Event>): Rec {
    if es == [] then r else Apply(Run(r, es[..|es| - 1]), es[|es| - 1])
  }

  // -------------------------------------------------------------------------
  // The recorder
  // -------------------------------------------------------------------------

  class PipeWireRecorder {
    var frameBuffer: array<Byte>
    var length: nat
    var width: nat
    var height: nat
    var stride: nat
    var format: Format
    var hasFrame: bool
    // The state shared with the stream's callbacks.
    var pending: array<Byte>
    var pendingLength: nat
    var pendingWidth: nat
    var pendingHeight: nat
    var pendingStride: nat
    var pendingFormat: Format
    var newFrame: bool
    var streamError: bool

    ghost predicate Valid()
      reads this
    {
      frameBuffer != pending && length <= frameBuffer.Length && pendingLength <= pending.Length
    }

    ghost function View(): Rec
      requires Valid()
      reads this, frameBuffer, pending
    {
      Rec(Frame(frameBuffer[..length], width, height, stride, format), hasFrame,
          Frame(pending[..pendingLength], pendingWidth, pendingHeight, pendingStride, pendingFormat), newFrame, streamError)
    }

    constructor ()
      ensures Valid() && View() == OPENED && fresh(frameBuffer) && fresh(pending)
    {
      frameBuffer, pending := new Byte[0], new Byte[0];
      length, width, height, stride, format, hasFrame := 0, 0, 0, 0, Other, false;
      pendingLength, pendingWidth, pendingHeight, pendingStride, pendingFormat := 0, 0, 0, 0, Other;
      newFrame, streamError := false, false;
    }

    method ParamChanged(w: nat, h: nat, f: Format)
      requires Valid()
      modifies this
      ensures Valid() && frameBuffer == old(frameBuffer) && pending == old(pending)
      ensures View() == Apply(old(View()), Event.Format(w, h, f))
    {
      pendingWidth, pendingHeight, pendingFormat := w, h, f;
    }

    /** The stream's data is copied into a new vector, which takes the place of the one before. */
    method Process(data: seq<Byte>, chunkStride: nat)
      requires Valid()
      modifies this
      ensures Valid() && frameBuffer == old(frameBuffer) && (pending == old(pending) || fresh(pending))
      ensures View() == Apply(old(View()), Deliver(data, chunkStride))
    {
      if data == [] || pendingFormat == Other {
        return;
      }
      var expectedStride := if chunkStride > 0 then chunkStride else RowBytes(pendingWidth, pendingFormat);
      if |data| < expectedStride * pendingHeight {
        return;
      }
      var copy := new Byte[|data|](i requires 0 <= i < |data| => data[i]);
      pending, pendingLength := copy, |data|;
      assert pending[..pendingLength] == data;
      pendingStride := expectedStride;
      newFrame := true;
    }

    method StateChanged()
      requires Valid()
      modifies this
      ensures Valid() && frameBuffer == old(frameBuffer) && pending == old(pending)
      ensures View() == Apply(old(View()), Fail)
    {
      streamError := true;
    }

    /** The buffers change places; the one given back is empty. */
    method Swap()
      requires Valid()
      modifies this
      ensures Valid() && {frameBuffer, pending} == old({frameBuffer, pending})
      ensures View() == SwapIn(old(View()))
    {
      if newFrame {
        length := 0;
        frameBuffer, pending := pending, frameBuffer;
        length, pendingLength := pendingLength, length;
        width, height, stride, format := pendingWidth, pendingHeight, pendingStride, pendingFormat;
        hasFrame := true;
        newFrame := false;
      }
    }

    method Capture() returns (r: Outcome)
      requires Valid()
      modifies this, frameBuffer, pending
      ensures Valid() && {frameBuffer, pending} == old({frameBuffer, pending})
      ensures r == CaptureOf(old(View()))
      ensures r != Panic ==> View() == AfterCapture(old(View()))
    {
      if streamError {
        return StreamError;
      }
      Swap();
      if !hasFrame {
        return NoBuffer;
      }
      var tight := RowBytes(width, format);
      match format {
        case BGRx | BGRA =>
          if stride == tight {
            return Pixels(Bgr0(width, height, frameBuffer[..length]));
          }
          return Pixels(Bgr0S(width, height, stride, frameBuffer[..length]));
        case RGBx | RGBA =>
          var ok, n := DepadRowsInPlace(frameBuffer, length, height, stride, tight);
          if !ok {
            return Panic;
          }
          length := n;
          stride := tight;
          return Pixels(Rgb0(width, height, frameBuffer[..length]));
        case Other =>
          return Unsupported;
      }
    }
  }

  // -------------------------------------------------------------------------
  // Serving again
  // -------------------------------------------------------------------------

  /** Whatever the frame, serving what was kept of it serves the same: rows are never compacted twice. */
  lemma {:induction false} ServingAgain(f: Frame)
    ensures Served(f) != Panic ==> Served(Kept(f)) == Served(f)
    ensures Kept(Kept(f)) == Kept(f)
  {
  }

  /** The frame last swapped in, as it was then. */
  function Taken(r: Rec, es: seq<Event>): Option<Frame> {
    if es == [] then None
    else
      var before := Run(r, es[..|es| - 1]);
      if es[|es| - 1] == Capture && before.newFrame && !before.streamError then Some(before.shared)
      else Taken(r, es[..|es| - 1])
  }

  /** No capture so far has panicked. */
  predicate Alive(r: Rec, es: seq<Event>) {
    es == [] ||
      (Alive(r, es[..|es| - 1]) &&
       (es[|es| - 1] == Capture ==> CaptureOf(Run(r, es[..|es| - 1])) != Panic))
  }

  lemma {:induction false} OwnIsTaken(es: seq<Event>)
    requires Alive(OPENED, es)
    ensures var r := Run(OPENED, es); var t := Taken(OPENED, es);
      && (r.hasFrame <==> t.Some?)
      && (t.Some? ==> Served(t.value) != Panic && r.own == Kept(t.value))
  {
    if es != [] {
      var rest := es[..|es| - 1];
      OwnIsTaken(rest);
      var t := Taken(OPENED, rest);
      if t.Some? {
        ServingAgain(t.value);
      }
    }
  }

  /** Compacting this frame runs out of its bytes. */
  predicate Breaks(f: Frame) {
    Swapped(f) && f.stride != Tight(f) && !RowsFit(|f.data|, f.height, f.stride, Tight(f))
  }

  /** No capture swapped in a frame that breaks. */
  predicate NeverBreaks(r: Rec, es: seq<Event>) {
    es == [] ||
      (var before := Run(r, es[..|es| - 1]);
       NeverBreaks(r, es[..|es| - 1]) &&
       (es[|es| - 1] == Capture && before.newFrame && !before.streamError ==> !Breaks(before.shared)))
  }

  /** Over every run: captures panic exactly by swapping in a frame whose rows are not all there. */
  lemma {:induction false} PanicsExactlyOnBreaks(es: seq<Event>)
    ensures Alive(OPENED, es) <==> NeverBreaks(OPENED, es)
  {
    if es != [] {
      var rest := es[..|es| - 1];
      PanicsExactlyOnBreaks(rest);
      if Alive(OPENED, rest) {
        OwnIsTaken(rest);
        var t := Taken(OPENED, rest);
        if t.Some? {
          ServingAgain(t.value);
        }
      }
    }
  }

  /**
    Over every run, a capture without a new frame serves exactly what the frame last swapped
    in would have served by itself, however often it has been served.
  */
  lemma {:induction false} RepeatsServeTheSame(es: seq<Event>)
    requires Alive(OPENED, es) && !Run(OPENED, es).streamError && !Run(OPENED, es).newFrame
    ensures var t := Taken(OPENED, es);
      CaptureOf(Run(OPENED, es)) == if t.Some? then Served(t.value) else NoBuffer
  {
    OwnIsTaken(es);
    var t := Taken(OPENED, es);
    if t.Some? {
      ServingAgain(t.value);
    }
  }

  // -------------------------------------------------------------------------
  // What is served of a delivered frame
  // -------------------------------------------------------------------------

  /** What the four bytes of a pixel are; the spare one is alpha, or means nothing. */
  datatype Channel = Red | Green | Blue | Spare

  /** Where a stream of this format puts a channel. */
  function PlaceIn(f: Format, channel: Channel): (c: nat)
    ensures c < 4
  {
    match channel
    case Red => if f == BGRx || f == BGRA then 2 else 0
    case Green => 1
    case Blue => if f == BGRx || f == BGRA then 0 else 2
    case Spare => 3
  }

  /** Where the readers of a provider look for a channel. */
  function PlaceOf(p: Provider, channel: Channel): nat {
    match p
    case Rgb0(_, _, _) => (match channel case Red => 0 case Green => 1 case Blue => 2 case Spare => 3)
    case _ => (match channel case Blue => 0 case Green => 1 case Red => 2 case Spare => 3)
  }

  /** The channel of pixel (x, y), as the readers of a provider find it. */
  function Sample(p: Provider, x: nat, y: nat, channel: Channel): Option<Byte> {
    var row := match p
      case Bgr0(w, _, _) => Offset(y, w * 4)
      case Bgr0S(_, _, stride, _) => Offset(y, stride)
      case Rgb0(w, _, _) => Offset(y, w * 4);
    var at := row + (x * 4 + PlaceOf(p, channel));
    if x < p.width && y < p.height && at < |p.data| then Some(p.data[at]) else None
  }

  /** Every row is there, and no shorter than its pixels. */
  predicate Sound(f: Frame) {
    f.format != Other && Tight(f) <= f.stride && |f.data| >= f.stride * f.height
  }

  lemma {:induction false} LastRowEnds(h: nat, stride: nat, tight: nat)
    requires h >= 1 && tight <= stride
    ensures (h - 1) * stride + tight <= stride * h
    ensures (h - 1) * tight + tight <= stride * h
  {
    assert (h - 1) * stride + stride == stride * h;
    assert (h - 1) * (stride - tight) >= 0;
    assert (h - 1) * tight <= (h - 1) * stride;
  }

  /**
    A frame whose shape lets every pixel be served: the last row is there, and if rows have
    to be moved, they can be.
  */
  predicate Servable(f: Frame) {
    f.width > 0 && f.height > 0 ==>
      && f.format != Other
      && Offset(f.height - 1, f.stride) + Tight(f) <= |f.data|
      && !Breaks(f)
      && (Swapped(f) ==> Movable(f.height, f.stride, Tight(f)))
  }

  lemma {:induction false} SoundIsServable(f: Frame)
    requires Sound(f)
    ensures Servable(f) && !Breaks(f)
  {
    if f.height >= 1 {
      var h, stride, tight := f.height, f.stride, Tight(f);
      LastRowEnds(h, stride, tight);
      OffsetIsProduct(h - 1, stride);
      OffsetIsProduct(h - 1, tight);
    }
  }

  /** This channel of this pixel is served as it was delivered. */
  predicate ServedAt(f: Frame, x: nat, y: nat, channel: Channel) {
    var at := Offset(y, f.stride) + (x * 4 + PlaceIn(f.format, channel));
    at < |f.data| && Served(f).Pixels? && Sample(Served(f).provider, x, y, channel) == Some(f.data[at])
  }

  predicate ServedWhole(f: Frame) {
    forall x: nat, y: nat, channel: Channel | x < f.width && y < f.height :: ServedAt(f, x, y, channel)
  }

  function ChannelAt(f: Format, c: nat): (channel: Channel)
    requires c < 4
    ensures PlaceIn(f, channel) == c
  {
    if c == PlaceIn(f, Red) then Red
    else if c == PlaceIn(f, Green) then Green
    else if c == PlaceIn(f, Blue) then Blue
    else Spare
  }

  lemma {:induction false} PixelsInside(f: Frame, x: nat, y: nat, c: nat)
    requires f.format != Other && x < f.width && y < f.height && c < 4
    requires Offset(f.height - 1, f.stride) + Tight(f) <= |f.data|
    ensures x * 4 + c < Tight(f) && Offset(y, f.stride) + (x * 4 + c) < |f.data|
  {
    OffsetOfLater(y, f.height - 1, f.stride);
  }

  lemma {:induction false} CompactedPixels(f: Frame, y: nat, k: nat)
    requires Servable(f) && f.width > 0 && y < f.height && k < Tight(f) && Swapped(f) && f.stride != Tight(f)
    ensures Offset(y, Tight(f)) + k < |Kept(f).data| && Offset(y, f.stride) + k < |f.data|
    ensures Kept(f).data[Offset(y, Tight(f)) + k] == f.data[Offset(y, f.stride) + k]
  {
    KeptData(f);
    DepaddedAt(f.data, f.height, f.stride, Tight(f), y, k);
  }

  lemma {:induction false} KeptData(f: Frame)
    requires Swapped(f) && f.stride != Tight(f) && RowsFit(|f.data|, f.height, f.stride, Tight(f))
    ensures Kept(f).data == Depadded(f.data, f.height, f.stride, Tight(f))
  {
  }

  lemma {:induction false} UnmovedAt(f: Frame, x: nat, y: nat, channel: Channel)
    requires f.format != Other && (Swapped(f) ==> f.stride == Tight(f)) && x < f.width && y < f.height
    requires Offset(y, f.stride) + (x * 4 + PlaceIn(f.format, channel)) < |f.data|
    ensures ServedAt(f, x, y, channel)
  {
  }

  lemma {:induction false} SampleOfRgb0(f: Frame, data: seq<Byte>, x: nat, y: nat, channel: Channel, k: nat)
    requires Swapped(f) && x < f.width && y < f.height && k == x * 4 + PlaceIn(f.format, channel)
    ensures var at := Offset(y, Tight(f)) + k;
      Sample(Rgb0(f.width, f.height, data), x, y, channel) == if at < |data| then Some(data[at]) else None
  {
  }

  lemma {:induction false} ServedAsRgb0(f: Frame)
    requires Swapped(f) && !Breaks(f)
    ensures Served(f) == Pixels(Rgb0(f.width, f.height, Kept(f).data))
  {
  }

  lemma {:induction false} MovedAt(f: Frame, x: nat, y: nat, channel: Channel, k: nat)
    requires Servable(f) && x < f.width && y < f.height && k == x * 4 + PlaceIn(f.format, channel) && k < Tight(f)
    requires Swapped(f) && f.stride != Tight(f)
    ensures ServedAt(f, x, y, channel)
  {
    CompactedPixels(f, y, k);
    ServedAsRgb0(f);
    SampleOfRgb0(f, Kept(f).data, x, y, channel, k);
  }

  lemma {:induction false} ServableAt(f: Frame, x: nat, y: nat, channel: Channel)
    requires Servable(f) && x < f.width && y < f.height
    ensures ServedAt(f, x, y, channel)
  {
    var c := PlaceIn(f.format, channel);
    PixelsInside(f, x, y, c);
    if Swapped(f) && f.stride != Tight(f) {
      MovedAt(f, x, y, channel, x * 4 + c);
    } else {
      UnmovedAt(f, x, y, channel);
    }
  }

  lemma {:induction false} ServableWhole(f: Frame)
    requires Servable(f)
    ensures ServedWhole(f)
  {
    forall x: nat, y: nat, channel: Channel | x < f.width && y < f.height ensures ServedAt(f, x, y, channel) {
      ServableAt(f, x, y, channel);
    }
  }

  lemma {:induction false} SplitByte(k: nat, width: nat)
    requires k < width * 4
    ensures k / 4 < width && k % 4 < 4 && k / 4 * 4 + k % 4 == k
  {
  }

  /** Bytes with which a frame of a shape that does not serve is not served whole. */
  lemma {:induction false} UnservableBytes(f: Frame) returns (data: seq<Byte>)
    requires !Servable(f)
    ensures |data| == |f.data| && !ServedWhole(f.(data := data))
  {
    data := f.data;
    var x, y := f.width - 1, f.height - 1;
    if f.format == Other || Breaks(f) || Offset(y, f.stride) + Tight(f) > |f.data| {
      assert !ServedAt(f, x, y, Spare);
      assert f.(data := data) == f;
    } else {
      var s, k := ShortStrideCorrupts(|f.data|, f.height, f.stride, Tight(f));
      data := s;
      SplitByte(k, f.width);
      var channel := ChannelAt(f.format, k % 4);
      OverlapIsSeen(f.(data := s), k / 4, channel);
      assert !ServedAt(f.(data := s), k / 4, 2, channel);
    }
  }

  lemma {:induction false} ServedIsDepadded(g: Frame)
    requires Swapped(g) && g.stride != Tight(g) && !Breaks(g)
    ensures Served(g) == Pixels(Rgb0(g.width, g.height, Depadded(g.data, g.height, g.stride, Tight(g))))
  {
    KeptData(g);
  }

  lemma {:induction false} OverlapIsSeen(g: Frame, x: nat, channel: Channel)
    requires Swapped(g) && g.stride != Tight(g) && !Breaks(g) && g.height > 2 && x < g.width
    requires var d := Depadded(g.data, g.height, g.stride, Tight(g));
      var k := x * 4 + PlaceIn(g.format, channel);
      2 * Tight(g) + k < |d| && 2 * g.stride + k < |g.data| && d[2 * Tight(g) + k] != g.data[2 * g.stride + k]
    ensures !ServedAt(g, x, 2, channel)
  {
    ServedIsDepadded(g);
    SmallOffsets(g.stride);
    SmallOffsets(Tight(g));
  }

  /**
    A frame of this shape is served whole, each channel of each pixel where the readers of the
    provider look for it, whatever its bytes are, if and only if the shape is servable.
  */
  lemma {:induction false} ServedPixels(f: Frame)
    ensures Servable(f) <==> forall data: seq<Byte> | |data| == |f.data| :: ServedWhole(f.(data := data))
  {
    if Servable(f) {
      forall data: seq<Byte> | |data| == |f.data| ensures ServedWhole(f.(data := data)) {
        assert Servable(f.(data := data));
        ServableWhole(f.(data := data));
      }
    } else {
      var data := UnservableBytes(f);
    }
  }

  /** The frame last delivered, as it was then. */
  function Newest(es: seq<Event>): Option<Frame> {
    if es == [] then None
    else
      var before, e := Run(OPENED, es[..|es| - 1]), es[|es| - 1];
      if e.Deliver? && Accepted(before, e.data, e.stride) then Some(Apply(before, e).shared)
      else Newest(es[..|es| - 1])
  }

  /** The frame read with another size and format than it was delivered with. */
  function ReadAs(f: Frame, format: Frame): Frame {
    f.(width := format.width, height := format.height, format := format.format)
  }

  /**
    Over every run, what a capture swaps in is the newest frame's bytes and stride, read with the
    format of the moment: so it is the frame as delivered exactly when that is the same format.
  */
  lemma {:induction false} PendingIsNewest(es: seq<Event>)
    requires Run(OPENED, es).newFrame
    ensures var r, n := Run(OPENED, es), Newest(es);
      && n.Some? && r.shared == ReadAs(n.value, r.shared)
      && (r.shared == n.value <==>
            r.shared.width == n.value.width && r.shared.height == n.value.height && r.shared.format == n.value.format)
      && (!r.streamError ==> CaptureOf(r) == Served(ReadAs(n.value, r.shared)))
  {
    if es != [] && Run(OPENED, es[..|es| - 1]).newFrame {
      PendingIsNewest(es[..|es| - 1]);
    }
  }

  /** The strides delivered hold a row, and the format does not change under a frame not yet captured. */
  predicate Orderly(r: Rec, e: Event) {
    && (e.Deliver? ==> StrideOf(r, e.stride) >= Tight(r.shared))
    && (e.Format? ==> !r.newFrame)
  }

  predicate AllOrderly(es: seq<Event>) {
    es == [] || (AllOrderly(es[..|es| - 1]) && Orderly(Run(OPENED, es[..|es| - 1]), es[|es| - 1]))
  }

  /** The newest frame is sound, and is the one pending or the one last taken. */
  predicate NewestAtHand(es: seq<Event>) {
    var r, n, t := Run(OPENED, es), Newest(es), Taken(OPENED, es);
    && (n.Some? ==> Sound(n.value))
    && (if r.newFrame then n == Some(r.shared) else t == n)
    && (t.Some? ==> Sound(t.value))
  }

  lemma {:induction false} StepKeepsNewest(es: seq<Event>)
    requires es != [] && NewestAtHand(es[..|es| - 1]) && Orderly(Run(OPENED, es[..|es| - 1]), es[|es| - 1])
    ensures NewestAtHand(es)
  {
  }

  lemma {:induction false} SoundIsServed(f: Frame)
    requires Sound(f)
    ensures Served(f).Pixels? && ServedWhole(f)
  {
    SoundIsServable(f);
    ServableWhole(f);
  }

  /** Over every orderly run no capture panics, and each serves the newest frame whole. */
  lemma {:induction false} CapturesServeTheNewest(es: seq<Event>)
    requires AllOrderly(es)
    ensures Alive(OPENED, es) && NewestAtHand(es)
    ensures var r, n := Run(OPENED, es), Newest(es);
      !r.streamError ==>
        && CaptureOf(r) == (if n.Some? then Served(n.value) else NoBuffer)
        && (n.Some? ==> Served(n.value).Pixels? && ServedWhole(n.value))
  {
    if es != [] {
      CapturesServeTheNewest(es[..|es| - 1]);
      StepKeepsNewest(es);
    }
    var r, n := Run(OPENED, es), Newest(es);
    if n.Some? {
      SoundIsServed(n.value);
    }
    if !r.streamError && !r.newFrame {
      RepeatsServeTheSame(es);
    }
  }

  // -------------------------------------------------------------------------
  // Two ways to break
  // -------------------------------------------------------------------------

  lemma {:induction false} RunOfTwo(e0: Event, e1: Event)
    requires !e0.Capture? && !e1.Capture?
    ensures Run(OPENED, [e0, e1]) == Apply(Apply(OPENED, e0), e1)
    ensures Alive(OPENED, [e0, e1])
  {
    var es0, es1 := [e0], [e0, e1];
    assert es0[..0] == [] && es1[..1] == es0;
    assert Run(OPENED, es0) == Apply(OPENED, e0);
    assert Alive(OPENED, es0);
  }

  lemma {:induction false} OneMore(es: seq<Event>, e: Event)
    requires Alive(OPENED, es) && !e.Capture?
    ensures Run(OPENED, es + [e]) == Apply(Run(OPENED, es), e) && Alive(OPENED, es + [e])
  {
    assert (es + [e])[..|es|] == es;
  }

  /** A format change under a pending frame: the old bytes are read with the new size, and run out. */
  lemma {:induction false} FormatChangeUnderPendingFrame() returns (es: seq<Event>)
    ensures |es| == 3 && es[0].Format? && es[1].Deliver? && es[2].Format?
    ensures Alive(OPENED, es) && CaptureOf(Run(OPENED, es)) == Panic
  {
    var e0, e1, e2 := Event.Format(1, 1, RGBx), Deliver([7, 7, 7, 7, 0, 0, 0, 0], 8), Event.Format(1, 3, RGBx);
    RunOfTwo(e0, e1);
    es := [e0, e1] + [e2];
    OneMore([e0, e1], e2);
    OffsetIsProduct(2, 8);
    assert Breaks(Run(OPENED, es).shared);
  }

  /** A stride below the width of a row: two rows of one byte are taken for two rows of a pixel. */
  lemma {:induction false} ShortStridePanics() returns (es: seq<Event>)
    ensures |es| == 2 && es[0].Format? && es[1].Deliver?
    ensures Alive(OPENED, es) && Run(OPENED, es).newFrame && CaptureOf(Run(OPENED, es)) == Panic
  {
    var e0, e1 := Event.Format(1, 2, RGBx), Deliver([7, 7], 1);
    es := [e0, e1];
    RunOfTwo(e0, e1);
    assert Breaks(Run(OPENED, es).shared);
  }
}
