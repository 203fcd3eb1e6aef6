/**
  The browser's reading of the video stream: the decoder record is dug out of the
  movie box, top-level boxes are walked, and access units are handed to the decoder
  only from a key picture on.
*/
module WebCodecs {
  import opened Prelude
  import opened Boxes

  const MOOV: Kind := 0x6d6f_6f76
  const TRAK: Kind := 0x7472_616b
  const MDIA: Kind := 0x6d64_6961
  const MINF: Kind := 0x6d69_6e66
  const STBL: Kind := 0x7374_626c
  const STSD: Kind := 0x7374_7364
  const AVC1: Kind := 0x6176_6331
  const AVC3: Kind := 0x6176_6333
  const AVCC: Kind := 0x6176_6343
  const TKHD: Kind := 0x746b_6864
  const MDAT: Kind := 0x6d64_6174

  const STSD_PATH := [TRAK, MDIA, MINF, STBL, STSD]
  const TKHD_PATH := [TRAK, TKHD]

  // -------------------------------------------------------------------------
  // What is read from a movie box
  // -------------------------------------------------------------------------

  /** `Loops`: a search never ends.  `Throws`: a view is read or sliced out of range. */
  datatype Outcome<T> = Got(value: T) | Absent | Loops | Throws

  /** The bytes of a box after its header; a typed array over them throws when they are not there. */
  function Body(view: seq<Byte>, h: Header): Outcome<seq<Byte>> {
    if h.bodyStart <= h.end <= |view| then Got(view[h.bodyStart..h.end]) else Throws
  }

  function AvcC(view: seq<Byte>, moov: Header): Outcome<seq<Byte>> {
    match FindPath(view, moov.bodyStart, moov.end, STSD_PATH)
    case Miss => Absent
    case Stuck => Loops
    case Hit(stsd) => AvcCOfTable(view, stsd)
  }

  function AvcCOfTable(view: seq<Byte>, stsd: Header): Outcome<seq<Byte>> {
    var entries := stsd.bodyStart + 8;
    if entries >= stsd.end then Absent
    else
      match Find(view, entries, stsd.end, AVC1)
      case Stuck => Loops
      case Hit(entry) => AvcCOfEntry(view, entry)
      case Miss =>
        match Find(view, entries, stsd.end, AVC3)
        case Stuck => Loops
        case Miss => Absent
        case Hit(entry) => AvcCOfEntry(view, entry)
  }

  function AvcCOfEntry(view: seq<Byte>, entry: Header): Outcome<seq<Byte>> {
    match Find(view, entry.bodyStart + 78, entry.end, AVCC)
    case Miss => Absent
    case Stuck => Loops
    case Hit(avcC) => Body(view, avcC)
  }

  /** Width and height as the track header gives them, if its guessed place is inside the box. */
  function SizeHint(view: seq<Byte>, moov: Header): Outcome<(nat, nat)> {
    match FindPath(view, moov.bodyStart, moov.end, TKHD_PATH)
    case Miss => Absent
    case Stuck => Loops
    case Hit(tkhd) => HintAt(view, tkhd)
  }

  function HintAt(view: seq<Byte>, tkhd: Header): Outcome<(nat, nat)> {
    if tkhd.bodyStart >= |view| then Throws
    else
      var base := tkhd.bodyStart + HintOffset(view[tkhd.bodyStart]);
      if base + 8 > tkhd.end then Absent
      else if base + 8 > |view| then Throws
      else Got((Uint32(view, base) / 0x1_0000, Uint32(view, base + 4) / 0x1_0000))
  }

  function HintOffset(version: Byte): nat {
    (if version == 1 then 32 else 20) + 56
  }

  // -------------------------------------------------------------------------
  // The same on box trees
  // -------------------------------------------------------------------------

  function FirstOf(bs: seq<Box>, kind: Kind): Option<Box> {
    if bs == [] then None
    else if bs[0].kind == kind then Some(bs[0])
    else FirstOf(bs[1..], kind)
  }

  function Descend(bs: seq<Box>, path: seq<Kind>): Option<Box>
    decreases |path|
  {
    if path == [] then None
    else
      var b := FirstOf(bs, path[0]);
      if |path| == 1 || b.None? then b else Descend(b.value.children, path[1..])
  }

  function Payload(b: Box): seq<Byte> {
    b.prefix + PrintAll(b.children)
  }

  function EntryOf(stsd: Box): Option<Box> {
    var avc1 := FirstOf(stsd.children, AVC1);
    if avc1.Some? then avc1 else FirstOf(stsd.children, AVC3)
  }

  function RecordOf(entry: Box): Outcome<seq<Byte>> {
    RecordAmong(entry.children)
  }

  function RecordAmong(bs: seq<Box>): Outcome<seq<Byte>> {
    var avcC := FirstOf(bs, AVCC);
    if avcC.None? then Absent else Got(Payload(avcC.value))
  }

  /** The decoder record of a movie. */
  function TreeAvcC(moov: Box): Outcome<seq<Byte>> {
    var stsd := Descend(moov.children, STSD_PATH);
    if stsd.None? then Absent
    else
      var entry := EntryOf(stsd.value);
      if entry.None? then Absent else RecordOf(entry.value)
  }

  function TreeHint(moov: Box): Outcome<(nat, nat)> {
    var tkhd := Descend(moov.children, TKHD_PATH);
    if tkhd.None? then Absent else HintOf(Payload(tkhd.value))
  }

  function HintOf(body: seq<Byte>): Outcome<(nat, nat)> {
    if body == [] then Throws
    else
      var base := HintOffset(body[0]);
      if base + 8 > |body| then Absent
      else Got((Uint32(body, base) / 0x1_0000, Uint32(body, base + 4) / 0x1_0000))
  }

  /** The boxes met on a path, except the last, hold nothing but their children. */
  predicate PlainPath(bs: seq<Box>, path: seq<Kind>)
    decreases |path|
  {
    |path| > 1 ==>
      var b := FirstOf(bs, path[0]);
      b.Some? ==> b.value.prefix == [] && PlainPath(b.value.children, path[1..])
  }

  /** Movie boxes as the standard lays them out, down to the sample description. */
  predicate Standard(moov: Box) {
    && moov.prefix == []
    && PlainPath(moov.children, STSD_PATH)
    && PlainPath(moov.children, TKHD_PATH)
    && StandardTable(Descend(moov.children, STSD_PATH))
    && NonemptyHeader(Descend(moov.children, TKHD_PATH))
  }

  predicate StandardTable(stsd: Option<Box>) {
    stsd.Some? ==>
      && |stsd.value.prefix| == 8
      && (EntryOf(stsd.value).Some? ==> |EntryOf(stsd.value).value.prefix| == 78)
  }

  predicate NonemptyHeader(tkhd: Option<Box>) {
    tkhd.Some? ==> Payload(tkhd.value) != []
  }

  // -------------------------------------------------------------------------
  // Searching a printed tree
  // -------------------------------------------------------------------------

  /** The search ended as the tree says: at the printed box, or nowhere. */
  predicate Finds(view: seq<Byte>, r: Search, b: Option<Box>) {
    match b
    case None => r == Miss
    case Some(box) => r.Hit? && Printed(view, r.header, box)
  }

  predicate Printed(view: seq<Byte>, h: Header, b: Box) {
    WellFormed(b) && At(view, h.start, Print(b)) && h == HeaderOf(b, h.start)
  }

  lemma {:induction false} FirstIsFirstOf(bs: seq<Box>, start: nat, kind: Kind)
    ensures First(bs, start, kind).Some? == FirstOf(bs, kind).Some?
    ensures FirstOf(bs, kind).Some? ==> First(bs, start, kind).value.0 == FirstOf(bs, kind).value
    decreases |bs|
  {
    if bs != [] && bs[0].kind != kind {
      FirstIsFirstOf(bs[1..], start + Length(bs[0]), kind);
    }
  }

  lemma {:induction false} FindInPrinted(view: seq<Byte>, start: nat, end: nat, bs: seq<Box>, kind: Kind)
    requires WellFormedAll(bs) && At(view, start, PrintAll(bs)) && end == start + LengthAll(bs)
    ensures Finds(view, Find(view, start, end, kind), FirstOf(bs, kind))
  {
    FindPrinted(view, start, bs, kind);
    FirstIsFirstOf(bs, start, kind);
    var f := First(bs, start, kind);
    if f.Some? {
      FirstPrinted(view, start, bs, kind);
      assert Printed(view, HeaderOf(f.value.0, f.value.1), f.value.0);
    }
  }

  /** The children of a printed box stand after its header and prefix, up to its end. */
  lemma {:induction false} ChildrenPrinted(view: seq<Byte>, h: Header, b: Box)
    requires Printed(view, h, b)
    ensures WellFormedAll(b.children)
    ensures At(view, h.bodyStart + |b.prefix|, PrintAll(b.children))
    ensures h.end == h.bodyStart + |b.prefix| + LengthAll(b.children)
  {
    ReadPrinted(view, h.start, b);
  }

  lemma {:induction false} BodyPrinted(view: seq<Byte>, h: Header, b: Box)
    requires Printed(view, h, b)
    ensures Body(view, h) == Got(Payload(b))
  {
    ReadPrinted(view, h.start, b);
    PrintedLengthAll(b.children);
    BodyOfParts(view, h, b.prefix, PrintAll(b.children));
  }

  lemma {:induction false} BodyOfParts(view: seq<Byte>, h: Header, a: seq<Byte>, b: seq<Byte>)
    requires At(view, h.bodyStart, a) && At(view, h.bodyStart + |a|, b) && h.end == h.bodyStart + |a| + |b|
    ensures Body(view, h) == Got(a + b)
  {
    JoinParts(view, h.bodyStart, h.end, a, b);
  }

  lemma {:induction false} JoinParts(view: seq<Byte>, offset: nat, end: nat, a: seq<Byte>, b: seq<Byte>)
    requires At(view, offset, a) && At(view, offset + |a|, b) && end == offset + |a| + |b|
    ensures end <= |view| && view[offset..end] == a + b
  {
    AtSlice(view, offset, a);
    AtSlice(view, offset + |a|, b);
    var mid := offset + |a|;
    assert view[offset..end] == view[offset..mid] + view[mid..end];
  }

  lemma {:induction false} PathInPrinted(view: seq<Byte>, start: nat, end: nat, bs: seq<Box>, path: seq<Kind>)
    requires WellFormedAll(bs) && At(view, start, PrintAll(bs)) && end == start + LengthAll(bs)
    requires PlainPath(bs, path)
    ensures Finds(view, FindPath(view, start, end, path), Descend(bs, path))
    decreases |path|
  {
    if path != [] {
      FindInPrinted(view, start, end, bs, path[0]);
      var b := FirstOf(bs, path[0]);
      if |path| > 1 && b.Some? {
        var h := Find(view, start, end, path[0]).header;
        ChildrenPrinted(view, h, b.value);
        PathInPrinted(view, h.bodyStart, h.end, b.value.children, path[1..]);
      }
    }
  }

  lemma {:induction false} RecordInPrinted(view: seq<Byte>, entry: Header, bs: seq<Box>)
    requires WellFormedAll(bs) && At(view, entry.bodyStart + 78, PrintAll(bs))
    requires entry.end == entry.bodyStart + 78 + LengthAll(bs)
    ensures AvcCOfEntry(view, entry) == RecordAmong(bs)
  {
    var from, avcC := entry.bodyStart + 78, FirstOf(bs, AVCC);
    FindInPrinted(view, from, entry.end, bs, AVCC);
    if avcC.Some? {
      BodyPrinted(view, Find(view, from, entry.end, AVCC).header, avcC.value);
    }
  }

  lemma {:induction false} EntryInPrinted(view: seq<Byte>, entry: Header, b: Box)
    requires Printed(view, entry, b) && |b.prefix| == 78
    ensures AvcCOfEntry(view, entry) == RecordOf(b)
  {
    ChildrenPrinted(view, entry, b);
    RecordInPrinted(view, entry, b.children);
  }

  lemma {:induction false} TableInPrinted(view: seq<Byte>, stsd: Header, b: Box)
    requires Printed(view, stsd, b) && StandardTable(Some(b))
    ensures AvcCOfTable(view, stsd) == if EntryOf(b).None? then Absent else RecordOf(EntryOf(b).value)
  {
    ChildrenPrinted(view, stsd, b);
    var from := stsd.bodyStart + 8;
    FindInPrinted(view, from, stsd.end, b.children, AVC1);
    FindInPrinted(view, from, stsd.end, b.children, AVC3);
    if EntryOf(b).Some? {
      var avc1 := Find(view, from, stsd.end, AVC1);
      var found := if avc1.Hit? then avc1 else Find(view, from, stsd.end, AVC3);
      EntryInPrinted(view, found.header, EntryOf(b).value);
    }
  }

  /** The parser undoes the printer: the record read from the bytes is the record of the tree. */
  lemma {:induction false} ExtractionUndoesPrinting(view: seq<Byte>, h: Header, moov: Box)
    requires Printed(view, h, moov) && Standard(moov)
    ensures AvcC(view, h) == TreeAvcC(moov)
  {
    ChildrenPrinted(view, h, moov);
    PathInPrinted(view, h.bodyStart, h.end, moov.children, STSD_PATH);
    var stsd := Descend(moov.children, STSD_PATH);
    if stsd.Some? {
      TableInPrinted(view, FindPath(view, h.bodyStart, h.end, STSD_PATH).header, stsd.value);
    }
  }

  lemma {:induction false} SizeHintUndoesPrinting(view: seq<Byte>, h: Header, moov: Box)
    requires Printed(view, h, moov) && Standard(moov)
    ensures SizeHint(view, h) == TreeHint(moov)
  {
    ChildrenPrinted(view, h, moov);
    PathInPrinted(view, h.bodyStart, h.end, moov.children, TKHD_PATH);
    var tkhd := Descend(moov.children, TKHD_PATH);
    if tkhd.Some? {
      var t := FindPath(view, h.bodyStart, h.end, TKHD_PATH).header;
      BodyPrinted(view, t, tkhd.value);
      HintOfBody(view, t, Payload(tkhd.value));
    }
  }

  lemma {:induction false} HintOfBody(view: seq<Byte>, t: Header, body: seq<Byte>)
    requires Body(view, t) == Got(body) && body != []
    ensures HintAt(view, t) == HintOf(body)
  {
    assert view[t.bodyStart] == body[0];
    var base := HintOffset(body[0]);
    if base + 8 <= |body| {
      SameNumber(view, t, body, base);
      SameNumber(view, t, body, base + 4);
    }
  }

  lemma {:induction false} SameNumber(view: seq<Byte>, t: Header, body: seq<Byte>, base: nat)
    requires Body(view, t) == Got(body) && base + 4 <= |body|
    ensures Uint32(view, t.bodyStart + base) == Uint32(body, base)
  {
    var at := t.bodyStart + base;
    assert body[base] == view[at] && body[base + 1] == view[at + 1];
    assert body[base + 2] == view[at + 2] && body[base + 3] == view[at + 3];
  }

  // -------------------------------------------------------------------------
  // The decode pipe
  // -------------------------------------------------------------------------

  const FRAME_DURATION_US := 33_333

  /** What the pipe does to the outside, in order; `Restart` marks a call of `reset`. */
  datatype Call =
    | Configure(description: seq<Byte>, size: Option<(nat, nat)>)
    | Chunk(key: bool, timestamp: nat, data: seq<Byte>)
    | Complaint
    | CloseDecoder
    | Restart

  datatype Pipe = Pipe(decoder: bool, seenKeyframe: bool, nalLenSize: nat, timestamp: nat, calls: seq<Call>)

  const NEW_PIPE := Pipe(false, false, 4, 0, [])

  function NalLengthSize(avcC: seq<Byte>): (n: nat)
    ensures 1 <= n <= 4
  {
    if |avcC| < 5 then 4 else avcC[4] % 4 + 1
  }

  function FirstNaluType(data: seq<Byte>, nalLenSize: nat): nat {
    if |data| < nalLenSize + 1 then 0 else data[nalLenSize] % 32
  }

  predicate IsKey(p: Pipe, data: seq<Byte>) {
    FirstNaluType(data, p.nalLenSize) == 5
  }

  function EnsureDecoder(p: Pipe, avcC: seq<Byte>, size: Option<(nat, nat)>): Pipe {
    var closed := if p.decoder then p.calls + [CloseDecoder] else p.calls;
    Pipe(true, false, NalLengthSize(avcC), p.timestamp, closed + [Configure(avcC, size)])
  }

  function Media(p: Pipe, data: seq<Byte>): Pipe {
    if !p.decoder || (!p.seenKeyframe && !IsKey(p, data)) then p
    else
      p.(seenKeyframe := true, timestamp := p.timestamp + FRAME_DURATION_US,
         calls := p.calls + [Chunk(IsKey(p, data), p.timestamp, data)])
  }

  function Reset(p: Pipe): Pipe {
    p.(seenKeyframe := false, timestamp := 0, calls := p.calls + [Restart])
  }

  function Close(p: Pipe): Pipe {
    p.(decoder := false, calls := if p.decoder then p.calls + [CloseDecoder] else p.calls)
  }

  /** Init with what was read; `Loops` and `Throws` end the whole call. */
  function Init(p: Pipe, avcC: Outcome<seq<Byte>>, hint: Outcome<(nat, nat)>): Outcome<Pipe> {
    match avcC
    case Loops => Loops
    case Throws => Throws
    case Absent => Got(p.(calls := p.calls + [Complaint]))
    case Got(record) =>
      match hint
      case Loops => Loops
      case Throws => Throws
      case Absent => Got(EnsureDecoder(p, record, None))
      case Got(size) => Got(EnsureDecoder(p, record, Some(size)))
  }

  /** A call to `feed` may be cut short: an exception leaves it, or the walk goes round forever. */
  datatype Status = Going | Threw | Looped

  /** The walk's variables: the pipe and the payload of the last `mdat` so far. */
  datatype Walk = Walk(pipe: Pipe, pending: Option<seq<Byte>>, status: Status)

  function Visit(w: Walk, kind: Kind, avcC: Outcome<seq<Byte>>, hint: Outcome<(nat, nat)>,
                 body: Outcome<seq<Byte>>): Walk {
    if kind == MOOV then
      match Init(w.pipe, avcC, hint)
      case Got(p) => w.(pipe := p)
      case Loops => w.(status := Looped)
      case _ => w.(status := Threw)
    else if kind == MDAT then
      if body.Got? then w.(pending := Some(body.value)) else w.(status := Threw)
    else w
  }

  function VisitHeader(w: Walk, view: seq<Byte>, h: Header): Walk {
    Visit(w, h.kind, AvcC(view, h), SizeHint(view, h), Body(view, h))
  }

  function WalkFrom(w: Walk, view: seq<Byte>, offset: nat): Walk
    decreases |view| - offset
  {
    if offset >= |view| then w
    else
      var h := ReadBoxHeader(view, offset);
      if h.None? then w
      else
        var next := VisitHeader(w, view, h.value);
        if next.status != Going then next
        else if h.value.end <= offset then next.(status := Looped)
        else WalkFrom(next, view, h.value.end)
  }

  /** After the walk: the pending payload is handed over, unless the call was cut short. */
  function Finish(w: Walk): Pipe {
    if w.status == Going && w.pending.Some? then Media(w.pipe, w.pending.value) else w.pipe
  }

  function Fed(p: Pipe, view: seq<Byte>): Walk {
    var w := WalkFrom(Walk(p, None, Going), view, 0);
    w.(pipe := Finish(w))
  }

  // -------------------------------------------------------------------------
  // One printed payload, fed
  // -------------------------------------------------------------------------

  /** What matters of a top-level box: for a movie what is read from it, else its payload. */
  datatype Content = Content(kind: Kind, length: nat, avcC: Outcome<seq<Byte>>, hint: Outcome<(nat, nat)>,
                             payload: seq<Byte>)

  function ContentOf(b: Box): Content {
    Content(b.kind, Length(b), TreeAvcC(b), TreeHint(b), Payload(b))
  }

  /** The boxes of a payload, each once and in order. */
  function Contents(bs: seq<Box>): (cs: seq<Content>)
    ensures |cs| == |bs|
    decreases |bs|
  {
    if bs == [] then [] else [ContentOf(bs[0])] + Contents(bs[1..])
  }

  function VisitContent(w: Walk, c: Content): Walk {
    Visit(w, c.kind, c.avcC, c.hint, Got(c.payload))
  }

  function VisitAll(w: Walk, cs: seq<Content>): Walk
    decreases |cs|
  {
    if cs == [] then w else VisitAll(VisitContent(w, cs[0]), cs[1..])
  }

  predicate StandardMovies(bs: seq<Box>)
    decreases |bs|
  {
    bs == [] || (StandardMovie(bs[0]) && StandardMovies(bs[1..]))
  }

  predicate StandardMovie(b: Box) {
    b.kind == MOOV ==> Standard(b)
  }

  /** Nothing read from a movie cuts the walk short. */
  predicate Settled(c: Content) {
    c.kind == MOOV ==> !c.avcC.Loops? && !c.avcC.Throws? && !c.hint.Loops? && !c.hint.Throws?
  }

  /** A box with this content is read at the offset. */
  predicate ReadsAs(view: seq<Byte>, offset: nat, c: Content) {
    var h := ReadBoxHeader(view, offset);
    && h.Some? && h.value.kind == c.kind && offset < h.value.end == offset + c.length <= |view|
    && Body(view, h.value) == Got(c.payload)
    && (c.kind == MOOV ==> AvcC(view, h.value) == c.avcC && SizeHint(view, h.value) == c.hint)
    && Settled(c)
  }

  lemma {:induction false} PrintedReadsAs(view: seq<Byte>, offset: nat, b: Box)
    requires PrintedHere(view, offset, b)
    ensures ReadsAs(view, offset, ContentOf(b))
  {
    var h := HeaderOf(b, offset);
    ReadHere(view, offset, b);
    BodyPrinted(view, h, b);
    if b.kind == MOOV {
      ExtractionUndoesPrinting(view, h, b);
      SizeHintUndoesPrinting(view, h, b);
    }
  }

  /** Box by box, up to the end of the view. */
  predicate AllRead(view: seq<Byte>, offset: nat, cs: seq<Content>)
    decreases |cs|
  {
    if cs == [] then offset == |view|
    else ReadsAs(view, offset, cs[0]) && AllRead(view, offset + cs[0].length, cs[1..])
  }

  predicate PrintedHere(view: seq<Byte>, offset: nat, b: Box) {
    WellFormed(b) && At(view, offset, Print(b)) && StandardMovie(b)
  }

  predicate AllPrinted(view: seq<Byte>, offset: nat, bs: seq<Box>)
    decreases |bs|
  {
    if bs == [] then offset == |view|
    else PrintedHere(view, offset, bs[0]) && AllPrinted(view, offset + Length(bs[0]), bs[1..])
  }

  lemma {:induction false} PrintedOneByOne(view: seq<Byte>, offset: nat, bs: seq<Box>)
    requires WellFormedAll(bs) && StandardMovies(bs)
    requires At(view, offset, PrintAll(bs)) && offset + LengthAll(bs) == |view|
    ensures AllPrinted(view, offset, bs)
    decreases |bs|
  {
    if bs != [] {
      FirstOfPrinted(view, offset, bs);
      PrintedOneByOne(view, offset + Length(bs[0]), bs[1..]);
    }
  }

  lemma {:induction false} OneMoreRead(view: seq<Byte>, offset: nat, c: Content, cs: seq<Content>)
    requires ReadsAs(view, offset, c) && AllRead(view, offset + c.length, cs)
    ensures AllRead(view, offset, [c] + cs)
  {
    assert ([c] + cs)[1..] == cs;
  }

  lemma {:induction false} FirstRead(view: seq<Byte>, offset: nat, bs: seq<Box>, cs: seq<Content>)
    requires bs != [] && AllPrinted(view, offset, bs) && cs == Contents(bs)
    ensures AllPrinted(view, offset + Length(bs[0]), bs[1..]) && cs[1..] == Contents(bs[1..])
    ensures AllRead(view, offset + Length(bs[0]), cs[1..]) ==> AllRead(view, offset, cs)
  {
    PrintedReadsAs(view, offset, bs[0]);
    if AllRead(view, offset + Length(bs[0]), cs[1..]) {
      OneMoreRead(view, offset, ContentOf(bs[0]), cs[1..]);
    }
  }

  lemma {:induction false} PrintedAllRead(view: seq<Byte>, offset: nat, bs: seq<Box>, cs: seq<Content>)
    requires AllPrinted(view, offset, bs) && cs == Contents(bs)
    ensures AllRead(view, offset, cs)
    decreases |bs|
  {
    if bs == [] {
      assert cs == [] && offset == |view|;
    } else {
      FirstRead(view, offset, bs, cs);
      PrintedAllRead(view, offset + Length(bs[0]), bs[1..], cs[1..]);
    }
  }

  lemma {:induction false} VisitRead(w: Walk, view: seq<Byte>, offset: nat, c: Content)
    requires w.status == Going && ReadsAs(view, offset, c)
    ensures VisitContent(w, c).status == Going
    ensures WalkFrom(w, view, offset) == WalkFrom(VisitContent(w, c), view, offset + c.length)
  {
  }

  lemma {:induction false} WalkRead(w: Walk, view: seq<Byte>, offset: nat, cs: seq<Content>)
    requires w.status == Going && AllRead(view, offset, cs)
    ensures WalkFrom(w, view, offset) == VisitAll(w, cs)
    decreases |cs|
  {
    if cs != [] {
      VisitRead(w, view, offset, cs[0]);
      WalkRead(VisitContent(w, cs[0]), view, offset + cs[0].length, cs[1..]);
    }
  }

  /** The last of the media payloads. */
  function LastMedia(cs: seq<Content>): Option<seq<Byte>> {
    if cs == [] then None
    else if LastMedia(cs[1..]).Some? then LastMedia(cs[1..])
    else if cs[0].kind == MDAT then Some(cs[0].payload)
    else None
  }

  /** The pipe after the movies of a payload, in order. */
  function Movies(p: Pipe, cs: seq<Content>): Pipe
    decreases |cs|
  {
    if cs == [] then p
    else if cs[0].kind == MOOV then Movies(Movie(p, cs[0]), cs[1..])
    else Movies(p, cs[1..])
  }

  /** A movie with a decoder record sets up a decoder from it; one without draws a complaint. */
  function Movie(p: Pipe, moov: Content): Pipe {
    if moov.avcC.Got? then
      EnsureDecoder(p, moov.avcC.value, if moov.hint.Got? then Some(moov.hint.value) else None)
    else p.(calls := p.calls + [Complaint])
  }

  predicate AllSettled(cs: seq<Content>) {
    forall c | c in cs :: Settled(c)
  }

  lemma {:induction false} AllReadSettled(view: seq<Byte>, offset: nat, cs: seq<Content>)
    requires AllRead(view, offset, cs)
    ensures AllSettled(cs)
    decreases |cs|
  {
    if cs != [] {
      AllReadSettled(view, offset + cs[0].length, cs[1..]);
    }
  }

  lemma {:induction false} VisitAllMeans(w: Walk, cs: seq<Content>)
    requires AllSettled(cs)
    ensures VisitAll(w, cs) ==
              Walk(Movies(w.pipe, cs), if LastMedia(cs).Some? then LastMedia(cs) else w.pending, w.status)
    decreases |cs|
  {
    if cs != [] {
      assert cs[0] in cs && Settled(cs[0]);
      VisitAllMeans(VisitContent(w, cs[0]), cs[1..]);
    }
  }

  /**
    Feeding a printed payload: every movie sets up a decoder from its own record,
    then the last media payload goes whole to the decoder.
  */
  lemma {:induction false} FeedPrinted(p: Pipe, bs: seq<Box>)
    requires WellFormedAll(bs) && StandardMovies(bs)
    ensures var w, cs := Fed(p, PrintAll(bs)), Contents(bs); var q := Movies(p, cs);
      && w.status == Going
      && w.pipe == if LastMedia(cs).Some? then Media(q, LastMedia(cs).value) else q
  {
    var view, cs := PrintAll(bs), Contents(bs);
    PrintedLengthAll(bs);
    PrintedOneByOne(view, 0, bs);
    PrintedAllRead(view, 0, bs, cs);
    WalkRead(Walk(p, None, Going), view, 0, cs);
    AllReadSettled(view, 0, cs);
    VisitAllMeans(Walk(p, None, Going), cs);
  }
}
