/**
  ISO base media boxes (section 4.2 of ISO/IEC 14496-12) as the browser's parser
  reads them, against a printer for box trees.
*/
module Boxes {
  import opened Prelude

  // -------------------------------------------------------------------------
  // Big-endian numbers
  // -------------------------------------------------------------------------

  function Pow256(k: nat): (p: nat)
    ensures p > 0
  {
    if k == 0 then 1 else 256 * Pow256(k - 1)
  }

  /** The `k` bytes of `n`, most significant first. */
  function Bytes(n: nat, k: nat): (bs: seq<Byte>)
    ensures |bs| == k
  {
    if k == 0 then [] else Bytes(n / 256, k - 1) + [n % 256]
  }

  function Value(bs: seq<Byte>): nat {
    if bs == [] then 0 else 256 * Value(bs[..|bs| - 1]) + bs[|bs| - 1]
  }

  lemma {:induction false} ValueOfBytes(n: nat, k: nat)
    requires n < Pow256(k)
    ensures Value(Bytes(n, k)) == n
  {
    if k > 0 {
      var bs := Bytes(n / 256, k - 1) + [n % 256];
      assert bs[..k - 1] == Bytes(n / 256, k - 1);
      ValueOfBytes(n / 256, k - 1);
    }
  }

  lemma {:induction false} ValueStep(s: seq<Byte>, x: Byte)
    ensures Value(s + [x]) == 256 * Value(s) + x
  {
    assert (s + [x])[..|s|] == s;
  }

  lemma {:induction false} ValueAppend(a: seq<Byte>, b: seq<Byte>)
    ensures Value(a + b) == Value(a) * Pow256(|b|) + Value(b)
    decreases |b|
  {
    if b == [] {
      assert a + b == a;
    } else {
      var c, x := b[..|b| - 1], b[|b| - 1];
      ValueAppend(a, c);
      AppendStep(a, c, x);
      assert c + [x] == b;
    }
  }

  lemma {:induction false} AppendStep(a: seq<Byte>, c: seq<Byte>, x: Byte)
    requires Value(a + c) == Value(a) * Pow256(|c|) + Value(c)
    ensures Value(a + (c + [x])) == Value(a) * Pow256(|c| + 1) + Value(c + [x])
  {
    ValueStep(c, x);
    ValueStep(a + c, x);
    assert a + c + [x] == a + (c + [x]);
    AppendSum(Value(a), Pow256(|c|), Pow256(|c| + 1), Value(c), x);
  }

  lemma {:induction false} AppendSum(v: nat, p: nat, q: nat, w: nat, x: nat)
    requires q == 256 * p
    ensures 256 * (v * p + w) + x == v * q + (256 * w + x)
  {
    Shift(v, p);
  }

  lemma {:induction false} Shift(v: nat, p: nat)
    ensures 256 * (v * p) == v * (256 * p)
  {
  }

  // -------------------------------------------------------------------------
  // The parser
  // -------------------------------------------------------------------------

  /** A box type: its four characters, as one number. */
  type Kind = k: nat | k < 0x1_0000_0000

  datatype Header = Header(start: nat, bodyStart: nat, end: nat, kind: Kind)

  const U32 := 0x1_0000_0000

  function Uint32(view: seq<Byte>, offset: nat): (n: Kind)
    requires offset + 4 <= |view|
  {
    var b0: int, b1: int, b2: int, b3: int := view[offset], view[offset + 1], view[offset + 2], view[offset + 3];
    0x100_0000 * b0 + 0x1_0000 * b1 + 0x100 * b2 + b3
  }

  function ReadBoxHeader(view: seq<Byte>, offset: nat): Option<Header> {
    if offset + 8 > |view| then None
    else
      var size := Uint32(view, offset);
      var kind := Uint32(view, offset + 4);
      if size == 1 then
        if offset + 16 > |view| then None
        else
          var long := Uint32(view, offset + 8) * U32 + Uint32(view, offset + 12);
          Some(Header(offset, offset + 16, offset + long, kind))
      else
        Some(Header(offset, offset + 8, if size == 0 then |view| else offset + size, kind))
  }

  /** `Stuck`: the loop has come to a box that ends where it starts, and goes round forever. */
  datatype Search = Hit(header: Header) | Miss | Stuck

  function Find(view: seq<Byte>, start: nat, end: nat, kind: Kind): Search
    decreases end - start
  {
    if start >= end then Miss
    else
      var h := ReadBoxHeader(view, start);
      if h.None? then Miss
      else if h.value.kind == kind then Hit(h.value)
      else if h.value.end <= start then Stuck
      else Find(view, h.value.end, end, kind)
  }

  method FindBox(view: seq<Byte>, start: nat, end: nat, kind: Kind) returns (r: Search)
    ensures r == Find(view, start, end, kind)
  {
    var offset := start;
    while offset < end
      invariant Find(view, offset, end, kind) == Find(view, start, end, kind)
      decreases end - offset
    {
      var h := ReadBoxHeader(view, offset);
      if h.None? {
        return Miss;
      }
      if h.value.kind == kind {
        return Hit(h.value);
      }
      if h.value.end <= offset {
        return Stuck;
      }
      offset := h.value.end;
    }
    return Miss;
  }

  /** A box with a 64-bit size of zero stands here. */
  predicate ZeroAt(view: seq<Byte>, offset: nat) {
    offset + 16 <= |view| && Uint32(view, offset) == 1 && Uint32(view, offset + 8) == 0 == Uint32(view, offset + 12)
  }

  /** A box makes no progress exactly when it has that size. */
  lemma {:induction false} StuckOnlyOnZero(view: seq<Byte>, offset: nat)
    requires ReadBoxHeader(view, offset).Some?
    ensures ReadBoxHeader(view, offset).value.end <= offset <==> ZeroAt(view, offset)
  {
  }

  predicate HasZero(view: seq<Byte>, met: set<nat>) {
    exists at: nat :: at in met && ZeroAt(view, at)
  }

  lemma {:induction false} HasZeroIn(view: seq<Byte>, a: set<nat>, b: set<nat>)
    ensures HasZero(view, a + b) <==> HasZero(view, a) || HasZero(view, b)
  {
    if HasZero(view, a) || HasZero(view, b) {
      var at: nat :| (at in a || at in b) && ZeroAt(view, at);
      assert at in a + b;
    }
  }

  lemma {:induction false} HasZeroAt(view: seq<Byte>, at: nat)
    ensures HasZero(view, {at}) <==> ZeroAt(view, at)
    ensures !HasZero(view, {})
  {
    assert at in {at};
  }

  /** The boxes a search meets on its way: each of another kind, up to the first it gets stuck on. */
  function FindMet(view: seq<Byte>, start: nat, end: nat, kind: Kind): set<nat>
    decreases end - start
  {
    if start >= end then {}
    else
      var h := ReadBoxHeader(view, start);
      if h.None? || h.value.kind == kind then {}
      else if h.value.end <= start then {start}
      else {start} + FindMet(view, h.value.end, end, kind)
  }

  /** A search never ends if and only if it meets a box with a 64-bit size of zero. */
  lemma {:induction false} FindSticksOnZero(view: seq<Byte>, start: nat, end: nat, kind: Kind)
    ensures Find(view, start, end, kind).Stuck? <==> HasZero(view, FindMet(view, start, end, kind))
    decreases end - start
  {
    HasZeroAt(view, start);
    if start < end && ReadBoxHeader(view, start).Some? {
      var h := ReadBoxHeader(view, start).value;
      StuckOnlyOnZero(view, start);
      if h.kind != kind && h.end > start {
        FindSticksOnZero(view, h.end, end, kind);
        HasZeroIn(view, {start}, FindMet(view, h.end, end, kind));
      }
    }
  }

  lemma {:induction false} PowFour()
    ensures Pow256(4) == U32 && Pow256(8) == U32 * U32
  {
    assert Pow256(2) == 65536;
    assert Pow256(4) == 256 * (256 * Pow256(2));
    assert Pow256(6) == 256 * (256 * Pow256(4));
    assert Pow256(8) == 256 * (256 * Pow256(6));
  }

  /** The loop of `findDescendant`: each found box is the scope of the next search. */
  function FindPath(view: seq<Byte>, start: nat, end: nat, path: seq<Kind>): Search
    decreases |path|
  {
    if path == [] then Miss
    else
      var r := Find(view, start, end, path[0]);
      if |path| == 1 || !r.Hit? then r
      else FindPath(view, r.header.bodyStart, r.header.end, path[1..])
  }

  /** The boxes met by the searches along a path. */
  function PathMet(view: seq<Byte>, start: nat, end: nat, path: seq<Kind>): set<nat>
    decreases |path|
  {
    if path == [] then {}
    else
      var r := Find(view, start, end, path[0]);
      FindMet(view, start, end, path[0]) +
      if |path| > 1 && r.Hit? then PathMet(view, r.header.bodyStart, r.header.end, path[1..]) else {}
  }

  lemma {:induction false} PathSticksOnZero(view: seq<Byte>, start: nat, end: nat, path: seq<Kind>)
    ensures FindPath(view, start, end, path).Stuck? <==> HasZero(view, PathMet(view, start, end, path))
    decreases |path|
  {
    HasZeroAt(view, start);
    if path != [] {
      FindSticksOnZero(view, start, end, path[0]);
      var r := Find(view, start, end, path[0]);
      if |path| > 1 && r.Hit? {
        PathSticksOnZero(view, r.header.bodyStart, r.header.end, path[1..]);
        HasZeroIn(view, FindMet(view, start, end, path[0]), PathMet(view, r.header.bodyStart, r.header.end, path[1..]));
      } else {
        HasZeroIn(view, FindMet(view, start, end, path[0]), {});
      }
    }
  }

  lemma {:induction false} PathFrom(view: seq<Byte>, from: nat, to: nat, path: seq<Kind>, i: nat)
    requires i < |path|
    ensures var r := Find(view, from, to, path[i]);
      FindPath(view, from, to, path[i..]) ==
        if i + 1 == |path| || !r.Hit? then r else FindPath(view, r.header.bodyStart, r.header.end, path[i + 1..])
  {
    assert path[i..][0] == path[i] && path[i..][1..] == path[i + 1..];
  }

  method FindDescendant(view: seq<Byte>, start: nat, end: nat, path: seq<Kind>) returns (found: Search)
    ensures found == FindPath(view, start, end, path)
  {
    ghost var whole := FindPath(view, start, end, path);
    var from, to := start, end;
    found := Miss;
    var i := 0;
    assert path[0..] == path;
    while i < |path|
      invariant 0 <= i <= |path|
      invariant i < |path| ==> FindPath(view, from, to, path[i..]) == whole
      invariant i == |path| ==> found == whole
    {
      PathFrom(view, from, to, path, i);
      found := FindBox(view, from, to, path[i]);
      if !found.Hit? {
        return;
      }
      from, to := found.header.bodyStart, found.header.end;
      i := i + 1;
    }
  }

  // -------------------------------------------------------------------------
  // The printer
  // -------------------------------------------------------------------------

  /** A box: some bytes of its own, then its child boxes.  `large` selects the 64-bit size. */
  datatype Box = Box(kind: Kind, large: bool, prefix: seq<Byte>, children: seq<Box>)

  function HeaderLength(b: Box): nat {
    if b.large then 16 else 8
  }

  function Length(b: Box): nat
    decreases b, 1
  {
    HeaderLength(b) + |b.prefix| + LengthAll(b.children)
  }

  function LengthAll(bs: seq<Box>): nat
    decreases bs, 0
  {
    if bs == [] then 0 else Length(bs[0]) + LengthAll(bs[1..])
  }

  predicate WellFormed(b: Box)
    decreases b, 1
  {
    && Length(b) < (if b.large then U32 * U32 else U32)
    && WellFormedAll(b.children)
  }

  predicate WellFormedAll(bs: seq<Box>)
    decreases bs, 0
  {
    bs == [] || (WellFormed(bs[0]) && WellFormedAll(bs[1..]))
  }

  function PrintHeader(b: Box): seq<Byte> {
    if b.large then Bytes(1, 4) + Bytes(b.kind, 4) + Bytes(Length(b), 8) else Bytes(Length(b), 4) + Bytes(b.kind, 4)
  }

  function Print(b: Box): seq<Byte>
    decreases b, 1
  {
    PrintHeader(b) + b.prefix + PrintAll(b.children)
  }

  function PrintAll(bs: seq<Box>): seq<Byte>
    decreases bs, 0
  {
    if bs == [] then [] else Print(bs[0]) + PrintAll(bs[1..])
  }

  lemma {:induction false} PrintedLength(b: Box)
    requires WellFormed(b)
    ensures |Print(b)| == Length(b)
    decreases b, 1
  {
    PrintedLengthAll(b.children);
  }

  lemma {:induction false} PrintedLengthAll(bs: seq<Box>)
    requires WellFormedAll(bs)
    ensures |PrintAll(bs)| == LengthAll(bs)
    decreases bs, 0
  {
    if bs != [] {
      PrintedLength(bs[0]);
      PrintedLengthAll(bs[1..]);
    }
  }

  // -------------------------------------------------------------------------
  // Reading what was printed
  // -------------------------------------------------------------------------

  /** `part` stands at `offset` of the view. */
  predicate At(view: seq<Byte>, offset: nat, part: seq<Byte>) {
    offset + |part| <= |view| && forall k: nat | k < |part| :: part[k] == view[offset + k]
  }

  lemma {:induction false} AtSlice(view: seq<Byte>, offset: nat, part: seq<Byte>)
    requires At(view, offset, part)
    ensures view[offset..offset + |part|] == part
  {
  }

  lemma {:induction false} AtParts(view: seq<Byte>, offset: nat, a: seq<Byte>, b: seq<Byte>)
    requires At(view, offset, a + b)
    ensures At(view, offset, a) && At(view, offset + |a|, b)
  {
    forall k: nat | k < |a| ensures a[k] == view[offset + k] {
      assert (a + b)[k] == a[k];
    }
    forall k: nat | k < |b| ensures b[k] == view[offset + |a| + k] {
      assert (a + b)[|a| + k] == b[k];
    }
  }

  function HeaderOf(b: Box, start: nat): Header {
    Header(start, start + HeaderLength(b), start + Length(b), b.kind)
  }

  lemma {:induction false} NumberPrinted(view: seq<Byte>, offset: nat, n: nat)
    requires n < U32 && At(view, offset, Bytes(n, 4))
    ensures Uint32(view, offset) == n
  {
    PowFour();
    AtSlice(view, offset, Bytes(n, 4));
    ValueOfBytes(n, 4);
    Uint32IsValue(view, offset);
  }

  lemma {:induction false} LongPrinted(view: seq<Byte>, offset: nat, n: nat)
    requires n < U32 * U32 && At(view, offset, Bytes(n, 8))
    ensures Uint32(view, offset) * U32 + Uint32(view, offset + 4) == n
  {
    PowFour();
    AtSlice(view, offset, Bytes(n, 8));
    ValueOfBytes(n, 8);
    LongValue(view, offset);
  }

  lemma {:induction false} ReadLong(view: seq<Byte>, offset: nat, b: Box, one: nat)
    requires WellFormed(b) && b.large && one == 1
    requires At(view, offset, Bytes(one, 4) + Bytes(b.kind, 4) + Bytes(Length(b), 8))
    ensures ReadBoxHeader(view, offset) == Some(HeaderOf(b, offset))
  {
    ThreeParts(view, offset, Bytes(one, 4), Bytes(b.kind, 4), Bytes(Length(b), 8));
    NumberPrinted(view, offset, one);
    NumberPrinted(view, offset + 4, b.kind);
    LongPrinted(view, offset + 8, Length(b));
  }

  lemma {:induction false} Uint32IsValue(view: seq<Byte>, offset: nat)
    requires offset + 4 <= |view|
    ensures Uint32(view, offset) == Value(view[offset..offset + 4])
  {
    var b4 := view[offset..offset + 4];
    var b3, b2, b1 := b4[..3], b4[..2], b4[..1];
    assert b3[..2] == b2 && b2[..1] == b1 && b1[..0] == [];
    assert Value(b1) == view[offset];
    assert Value(b2) == 0x100 * Value(b1) + view[offset + 1];
    assert Value(b3) == 0x100 * Value(b2) + view[offset + 2];
  }

  lemma {:induction false} LongValue(view: seq<Byte>, offset: nat)
    requires offset + 8 <= |view|
    ensures Uint32(view, offset) * U32 + Uint32(view, offset + 4) == Value(view[offset..offset + 8])
  {
    PowFour();
    var hi, lo := view[offset..offset + 4], view[offset + 4..offset + 8];
    assert view[offset..offset + 8] == hi + lo;
    ValueAppend(hi, lo);
    Uint32IsValue(view, offset);
    Uint32IsValue(view, offset + 4);
  }

  lemma {:induction false} ReadHeader(view: seq<Byte>, offset: nat, b: Box)
    requires WellFormed(b) && At(view, offset, PrintHeader(b))
    ensures ReadBoxHeader(view, offset) == Some(HeaderOf(b, offset))
  {
    if b.large {
      ReadLong(view, offset, b, 1);
    } else {
      AtParts(view, offset, Bytes(Length(b), 4), Bytes(b.kind, 4));
      NumberPrinted(view, offset, Length(b));
      NumberPrinted(view, offset + 4, b.kind);
    }
  }

  lemma {:induction false} ReadPrinted(view: seq<Byte>, offset: nat, b: Box)
    requires WellFormed(b) && At(view, offset, Print(b))
    ensures ReadBoxHeader(view, offset) == Some(HeaderOf(b, offset))
    ensures var h := HeaderOf(b, offset);
      && At(view, h.bodyStart, b.prefix)
      && At(view, h.bodyStart + |b.prefix|, PrintAll(b.children))
      && h.end == h.bodyStart + |b.prefix| + LengthAll(b.children) <= |view|
  {
    PrintedLength(b);
    ThreeParts(view, offset, PrintHeader(b), b.prefix, PrintAll(b.children));
    HeaderPrinted(b);
    ReadHeader(view, offset, b);
  }

  lemma {:induction false} HeaderPrinted(b: Box)
    ensures |PrintHeader(b)| == HeaderLength(b)
  {
  }

  lemma {:induction false} ThreeParts(view: seq<Byte>, offset: nat, a: seq<Byte>, b: seq<Byte>, c: seq<Byte>)
    requires At(view, offset, a + b + c)
    ensures At(view, offset, a) && At(view, offset + |a|, b) && At(view, offset + |a| + |b|, c)
  {
    AtParts(view, offset, a + b, c);
    AtParts(view, offset, a, b);
  }

  /** The first box of a kind, with the offset it is printed at. */
  function First(bs: seq<Box>, start: nat, kind: Kind): Option<(Box, nat)> {
    if bs == [] then None
    else if bs[0].kind == kind then Some((bs[0], start))
    else First(bs[1..], start + Length(bs[0]), kind)
  }

  predicate Reads(view: seq<Byte>, start: nat, b: Box) {
    ReadBoxHeader(view, start) == Some(HeaderOf(b, start))
  }

  /** The headers of the boxes read one after the other, from `start` up to `end`. */
  predicate Laid(view: seq<Byte>, start: nat, end: nat, bs: seq<Box>)
    decreases |bs|
  {
    if bs == [] then start == end
    else
      && start < end
      && Reads(view, start, bs[0])
      && Laid(view, start + Length(bs[0]), end, bs[1..])
  }

  lemma {:induction false} FirstOfPrinted(view: seq<Byte>, start: nat, bs: seq<Box>)
    requires bs != [] && WellFormedAll(bs) && At(view, start, PrintAll(bs))
    ensures WellFormed(bs[0]) && At(view, start, Print(bs[0])) && |Print(bs[0])| == Length(bs[0])
    ensures WellFormedAll(bs[1..]) && At(view, start + Length(bs[0]), PrintAll(bs[1..]))
  {
    var first, rest := Print(bs[0]), PrintAll(bs[1..]);
    PrintedLength(bs[0]);
    assert PrintAll(bs) == first + rest;
    AtParts(view, start, first, rest);
  }

  lemma {:induction false} ReadHere(view: seq<Byte>, start: nat, b: Box)
    requires WellFormed(b) && At(view, start, Print(b))
    ensures Reads(view, start, b) && start + Length(b) <= |view|
  {
    ReadPrinted(view, start, b);
  }

  lemma {:induction false} OneMoreLaid(view: seq<Byte>, start: nat, end: nat, bs: seq<Box>)
    requires bs != [] && WellFormed(bs[0]) && At(view, start, Print(bs[0])) && end == start + LengthAll(bs)
    requires Laid(view, start + Length(bs[0]), end, bs[1..])
    ensures Laid(view, start, end, bs)
  {
    ReadHere(view, start, bs[0]);
  }

  lemma {:induction false} FirstLaid(view: seq<Byte>, start: nat, end: nat, bs: seq<Box>)
    requires bs != [] && WellFormedAll(bs) && At(view, start, PrintAll(bs)) && end == start + LengthAll(bs)
    ensures WellFormedAll(bs[1..]) && At(view, start + Length(bs[0]), PrintAll(bs[1..]))
    ensures Laid(view, start + Length(bs[0]), end, bs[1..]) ==> Laid(view, start, end, bs)
  {
    FirstOfPrinted(view, start, bs);
    if Laid(view, start + Length(bs[0]), end, bs[1..]) {
      OneMoreLaid(view, start, end, bs);
    }
  }

  lemma {:induction false} PrintedIsLaid(view: seq<Byte>, start: nat, end: nat, bs: seq<Box>)
    requires WellFormedAll(bs) && At(view, start, PrintAll(bs)) && end == start + LengthAll(bs)
    ensures Laid(view, start, end, bs)
    decreases |bs|
  {
    if bs != [] {
      FirstLaid(view, start, end, bs);
      PrintedIsLaid(view, start + Length(bs[0]), end, bs[1..]);
    }
  }

  lemma {:induction false} FindLaid(view: seq<Byte>, start: nat, end: nat, bs: seq<Box>, kind: Kind)
    requires Laid(view, start, end, bs)
    ensures Find(view, start, end, kind) == Located(First(bs, start, kind))
    decreases |bs|
  {
    if bs != [] && bs[0].kind != kind {
      FindLaid(view, start + Length(bs[0]), end, bs[1..], kind);
    }
  }

  /** The first box of a kind is one of the boxes, printed where `First` says. */
  lemma {:induction false} FirstPrinted(view: seq<Byte>, start: nat, bs: seq<Box>, kind: Kind)
    requires WellFormedAll(bs) && At(view, start, PrintAll(bs))
    ensures var f := First(bs, start, kind);
      f.Some? ==> WellFormed(f.value.0) && f.value.0.kind == kind && At(view, f.value.1, Print(f.value.0))
    decreases |bs|
  {
    if bs != [] {
      FirstOfPrinted(view, start, bs);
      FirstPrinted(view, start + Length(bs[0]), bs[1..], kind);
    }
  }

  /** Searching printed boxes finds the first of that kind, whatever its siblings, and always ends. */
  lemma {:induction false} FindPrinted(view: seq<Byte>, start: nat, bs: seq<Box>, kind: Kind)
    requires WellFormedAll(bs) && At(view, start, PrintAll(bs))
    ensures Find(view, start, start + LengthAll(bs), kind) == Located(First(bs, start, kind))
  {
    PrintedIsLaid(view, start, start + LengthAll(bs), bs);
    FindLaid(view, start, start + LengthAll(bs), bs, kind);
  }

  function Located(f: Option<(Box, nat)>): Search {
    if f.None? then Miss else Hit(HeaderOf(f.value.0, f.value.1))
  }
}
