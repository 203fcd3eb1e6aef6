/**
  Taking the padding out of the rows of a pixel buffer, in place: each row is moved
  towards the front over bytes that are no longer needed.
*/
module Depad {
  import opened Prelude
  import opened Offsets

  // -------------------------------------------------------------------------
  // One move
  // -------------------------------------------------------------------------

  /** The bytes with `n` of them from `src` on copied to `dst`, as if through a second buffer. */
  function CopiedWithin(s: seq<Byte>, src: nat, n: nat, dst: nat): (t: seq<Byte>)
    requires src + n <= |s| && dst + n <= |s|
    ensures |t| == |s|
  {
    s[..dst] + s[src..src + n] + s[dst + n..]
  }

  lemma {:induction false} CopiedByte(s: seq<Byte>, src: nat, n: nat, dst: nat, k: nat)
    requires src + n <= |s| && dst + n <= |s| && k < |s|
    ensures CopiedWithin(s, src, n, dst)[k] == if dst <= k < dst + n then s[src + (k - dst)] else s[k]
  {
    var front, part, back := s[..dst], s[src..src + n], s[dst + n..];
    if k < dst {
      assert (front + part + back)[k] == front[k];
    } else if k < dst + n {
      assert (front + part + back)[k] == part[k - dst];
    } else {
      assert (front + part + back)[k] == back[k - dst - n];
    }
  }

  method CopyWithin(buf: array<Byte>, src: nat, n: nat, dst: nat)
    requires src + n <= buf.Length && dst + n <= buf.Length
    modifies buf
    ensures buf[..] == CopiedWithin(old(buf[..]), src, n, dst)
  {
    forall k | 0 <= k < n {
      buf[dst + k] := buf[src + k];
    }
  }

  // -------------------------------------------------------------------------
  // All rows
  // -------------------------------------------------------------------------

  /** The last row to be moved lies inside the buffer, where it is and where it goes. */
  predicate RowsFit(length: nat, h: nat, stride: nat, tight: nat) {
    h <= 1 || (Offset(h - 1, stride) + tight <= length && Offset(h - 1, tight) + tight <= length)
  }

  lemma {:induction false} RowFits(length: nat, h: nat, stride: nat, tight: nat, row: nat)
    requires RowsFit(length, h, stride, tight) && 1 <= row < h
    ensures Offset(row, stride) + tight <= length && Offset(row, tight) + tight <= length
    ensures RowsFit(length, row, stride, tight)
    ensures Offset(row - 1, stride) + tight <= length
  {
    OffsetOfLater(row, h - 1, stride);
    OffsetOfLater(row, h - 1, tight);
    OffsetOfLater(row - 1, h - 1, stride);
    OffsetOfLater(row - 1, h - 1, tight);
  }

  lemma {:induction false} RowOutside(length: nat, h: nat, stride: nat, tight: nat, row: nat)
    requires 1 <= row < h
    requires Offset(row, stride) + tight > length || Offset(row, tight) + tight > length
    ensures !RowsFit(length, h, stride, tight)
  {
    if RowsFit(length, h, stride, tight) {
      RowFits(length, h, stride, tight, row);
    }
  }

  /** Rows 1 to h - 1 moved one after the other, each on what the moves before it left. */
  function Moved(s: seq<Byte>, h: nat, stride: nat, tight: nat): (t: seq<Byte>)
    requires RowsFit(|s|, h, stride, tight)
    ensures |t| == |s|
  {
    if h <= 1 then s
    else
      RowFits(|s|, h, stride, tight, h - 1);
      CopiedWithin(Moved(s, h - 1, stride, tight), Offset(h - 1, stride), tight, Offset(h - 1, tight))
  }

  function Truncated(s: seq<Byte>, n: nat): seq<Byte> {
    if n < |s| then s[..n] else s
  }

  function Depadded(s: seq<Byte>, h: nat, stride: nat, tight: nat): seq<Byte>
    requires stride == tight || RowsFit(|s|, h, stride, tight)
  {
    if stride == tight then s else Truncated(Moved(s, h, stride, tight), Offset(h, tight))
  }

  /** `length` bytes of the array are in use.  Moving a row from or to outside of them panics. */
  method DepadRowsInPlace(buf: array<Byte>, length: nat, h: nat, stride: nat, tight: nat)
    returns (ok: bool, newLength: nat)
    requires length <= buf.Length
    modifies buf
    ensures ok <==> stride == tight || RowsFit(length, h, stride, tight)
    ensures ok ==> newLength <= length && buf[..newLength] == Depadded(old(buf[..length]), h, stride, tight)
  {
    if stride == tight {
      return true, length;
    }
    ok := MoveRows(buf, length, h, stride, tight);
    OffsetIsProduct(h, tight);
    newLength := Min(length, h * tight);
    assert ok ==> buf[..newLength] == buf[..length][..newLength];
  }

  method MoveRows(buf: array<Byte>, length: nat, h: nat, stride: nat, tight: nat) returns (ok: bool)
    requires length <= buf.Length
    modifies buf
    ensures ok <==> RowsFit(length, h, stride, tight)
    ensures ok ==> buf[..length] == Moved(old(buf[..length]), h, stride, tight)
  {
    ghost var was := buf[..length];
    var row := 1;
    while row < h
      invariant 1 <= row <= Max(1, h)
      invariant RowsFit(length, row, stride, tight)
      invariant buf[..length] == Moved(was, row, stride, tight)
    {
      var src, dst := row * stride, row * tight;
      OffsetIsProduct(row, stride);
      OffsetIsProduct(row, tight);
      if src + tight > length || dst + tight > length {
        RowOutside(length, h, stride, tight, row);
        return false;
      }
      CopyInUse(buf, length, src, tight, dst);
      row := row + 1;
    }
    assert h <= 1 ==> Moved(was, h, stride, tight) == was;
    return true;
  }

  method CopyInUse(buf: array<Byte>, length: nat, src: nat, n: nat, dst: nat)
    requires length <= buf.Length && src + n <= length && dst + n <= length
    modifies buf
    ensures buf[..length] == CopiedWithin(old(buf[..length]), src, n, dst)
  {
    CopyOfPrefix(buf[..], length, src, n, dst);
    CopyWithin(buf, src, n, dst);
  }

  lemma {:induction false} CopyOfPrefix(s: seq<Byte>, length: nat, src: nat, n: nat, dst: nat)
    requires length <= |s| && src + n <= length && dst + n <= length
    ensures CopiedWithin(s, src, n, dst)[..length] == CopiedWithin(s[..length], src, n, dst)
  {
    var t, u := CopiedWithin(s, src, n, dst)[..length], CopiedWithin(s[..length], src, n, dst);
    forall k: nat | k < length ensures t[k] == u[k] {
      CopiedByte(s, src, n, dst, k);
      CopiedByte(s[..length], src, n, dst, k);
    }
  }

  // -------------------------------------------------------------------------
  // Row by row, without moving
  // -------------------------------------------------------------------------

  /** The first `tight` bytes of each of the first h rows. */
  function Rows(s: seq<Byte>, h: nat, stride: nat, tight: nat): (t: seq<Byte>)
    requires h > 0 ==> Offset(h - 1, stride) + tight <= |s|
  {
    if h == 0 then []
    else
      OffsetOfLater(h - 1, h, stride);
      Rows(s, h - 1, stride, tight) + s[Offset(h - 1, stride)..Offset(h - 1, stride) + tight]
  }

  lemma {:induction false} RowsLength(s: seq<Byte>, h: nat, stride: nat, tight: nat)
    requires h > 0 ==> Offset(h - 1, stride) + tight <= |s|
    ensures |Rows(s, h, stride, tight)| == Offset(h, tight)
  {
    if h > 0 {
      RowsLength(s, h - 1, stride, tight);
    }
  }

  /** Byte `c` of row `y`, in the padded and in the compact bytes. */
  lemma {:induction false} RowsAt(s: seq<Byte>, h: nat, stride: nat, tight: nat, y: nat, c: nat)
    requires y < h && c < tight && Offset(h - 1, stride) + tight <= |s|
    ensures |Rows(s, h, stride, tight)| == Offset(h, tight)
    ensures Offset(y, tight) + c < Offset(h, tight) && Offset(y, stride) + c < |s|
    ensures Rows(s, h, stride, tight)[Offset(y, tight) + c] == s[Offset(y, stride) + c]
  {
    RowsLength(s, h, stride, tight);
    RowsLength(s, h - 1, stride, tight);
    OffsetOfLater(y, h - 1, stride);
    OffsetOfLater(y, h - 1, tight);
    if y < h - 1 {
      RowsAt(s, h - 1, stride, tight, y, c);
    }
  }

  /** When each row is still whole as its turn comes. */
  predicate Movable(h: nat, stride: nat, tight: nat) {
    tight <= stride || h <= 2 || stride == 0
  }

  /** A row moved after the first one starts no earlier than it goes, or starts at zero. */
  lemma {:induction false} SourceOfLater(row: nat, stride: nat, tight: nat)
    requires row > 1 && Movable(row + 1, stride, tight)
    ensures Offset(row, tight) <= Offset(row, stride) || Offset(row, stride) == 0
  {
    if tight <= stride {
      OffsetOfWider(row, tight, stride);
    } else {
      OffsetOfWider(row, 0, 0);
    }
  }

  /** So the bytes of a row not yet moved are those it had. */
  lemma {:induction false} RowUntouched(s: seq<Byte>, m: seq<Byte>, src: nat, n: nat, dst: nat)
    requires |m| == |s| && src + n <= |s| && dst + n <= |s|
    requires m[..n] == s[..n] && m[dst..] == s[dst..]
    requires dst <= src || src == 0 || m == s
    ensures m[src..src + n] == s[src..src + n]
  {
    if dst <= src {
      SliceBehind(m, s, dst, src, n);
    } else if src == 0 {
      assert m[0..0 + n] == m[..n] && s[0..0 + n] == s[..n];
    }
  }

  /** The first h rows compact, the bytes behind them as they were. */
  function Compact(s: seq<Byte>, h: nat, stride: nat, tight: nat): seq<Byte>
    requires h > 0 ==> Offset(h - 1, stride) + tight <= |s|
    requires Offset(h, tight) <= |s|
  {
    Rows(s, h, stride, tight) + s[Offset(h, tight)..]
  }

  lemma {:induction false} FirstRowStays(s: seq<Byte>, h: nat, stride: nat, tight: nat)
    requires h >= 1 && Offset(h - 1, stride) + tight <= |s|
    ensures |Rows(s, h, stride, tight)| == Offset(h, tight) && tight <= Offset(h, tight)
    ensures Rows(s, h, stride, tight)[..tight] == s[..tight]
  {
    RowsLength(s, h, stride, tight);
    if h == 1 {
      assert Rows(s, 0, stride, tight) == [];
      assert s[0..0 + tight] == s[..tight];
    } else {
      OffsetOfLater(h - 2, h - 1, stride);
      FirstRowStays(s, h - 1, stride, tight);
    }
  }

  lemma {:induction false} CopyAppends(s: seq<Byte>, m: seq<Byte>, rows: seq<Byte>, next: seq<Byte>, src: nat, n: nat, dst: nat)
    requires |rows| == dst && dst + n <= |s| && src + n <= |s| && m == rows + s[dst..]
    requires m[src..src + n] == s[src..src + n] && next == rows + s[src..src + n]
    ensures |m| == |s| && CopiedWithin(m, src, n, dst) == next + s[dst + n..]
  {
    assert m[..dst] == rows;
    assert m[dst + n..] == s[dst + n..];
  }

  /** The next row is whole as its turn comes. */
  lemma {:induction false} NextRowUntouched(s: seq<Byte>, row: nat, stride: nat, tight: nat)
    requires row >= 1 && Movable(row + 1, stride, tight) && Offset(row - 1, stride) + tight <= |s|
    requires Offset(row, stride) + tight <= |s| && Offset(row, tight) + tight <= |s|
    requires row == 1 ==> Compact(s, row, stride, tight) == s
    ensures |Compact(s, row, stride, tight)| == |s|
    ensures Compact(s, row, stride, tight)[Offset(row, stride)..Offset(row, stride) + tight] ==
              s[Offset(row, stride)..Offset(row, stride) + tight]
  {
    var m, rows, dst := Compact(s, row, stride, tight), Rows(s, row, stride, tight), Offset(row, tight);
    FirstRowStays(s, row, stride, tight);
    assert m[..tight] == rows[..tight];
    assert m[dst..] == s[dst..];
    if row > 1 {
      SourceOfLater(row, stride, tight);
    }
    RowUntouched(s, m, Offset(row, stride), tight, dst);
  }

  lemma {:induction false} FirstRowCompact(s: seq<Byte>, stride: nat, tight: nat)
    requires tight <= |s|
    ensures Compact(s, 1, stride, tight) == s && CompactAfter(s, 1, stride, tight)
  {
    assert Rows(s, 0, stride, tight) == [];
    assert Offset(1, tight) == tight && Offset(0, stride) == 0;
  }

  lemma {:induction false} RowsNext(s: seq<Byte>, row: nat, stride: nat, tight: nat)
    requires row >= 1 && Offset(row - 1, stride) + tight <= |s| && Offset(row, stride) + tight <= |s|
    ensures Rows(s, row + 1, stride, tight) == Rows(s, row, stride, tight) + s[Offset(row, stride)..Offset(row, stride) + tight]
    ensures |Rows(s, row, stride, tight)| == Offset(row, tight) && Offset(row + 1, tight) == Offset(row, tight) + tight
  {
    RowsLength(s, row, stride, tight);
  }

  lemma {:induction false} CopiedNext(s: seq<Byte>, m: seq<Byte>, row: nat, stride: nat, tight: nat)
    requires row >= 1 && Movable(row + 1, stride, tight) && Offset(row - 1, stride) + tight <= |s|
    requires Offset(row, stride) + tight <= |s| && Offset(row, tight) + tight <= |s|
    requires m == Compact(s, row, stride, tight)
    ensures |m| == |s|
    ensures CopiedWithin(m, Offset(row, stride), tight, Offset(row, tight)) == Compact(s, row + 1, stride, tight)
  {
    if row == 1 {
      FirstRowCompact(s, stride, tight);
    }
    NextRowUntouched(s, row, stride, tight);
    RowsNext(s, row, stride, tight);
    CopyAppends(s, m, Rows(s, row, stride, tight), Rows(s, row + 1, stride, tight),
                Offset(row, stride), tight, Offset(row, tight));
  }

  lemma {:induction false} MovedNext(s: seq<Byte>, m: seq<Byte>, row: nat, stride: nat, tight: nat)
    requires row >= 1 && RowsFit(|s|, row + 1, stride, tight) && RowsFit(|s|, row, stride, tight)
    requires Offset(row, stride) + tight <= |s| && Offset(row, tight) + tight <= |s|
    requires m == Moved(s, row, stride, tight)
    ensures Moved(s, row + 1, stride, tight) == CopiedWithin(m, Offset(row, stride), tight, Offset(row, tight))
  {
  }

  /** After the moves of the first rows, those are compact. */
  predicate CompactAfter(s: seq<Byte>, row: nat, stride: nat, tight: nat) {
    && row >= 1 && Offset(row - 1, stride) + tight <= |s| && Offset(row, tight) <= |s|
    && RowsFit(|s|, row, stride, tight)
    && Moved(s, row, stride, tight) == Compact(s, row, stride, tight)
  }

  lemma {:induction false} MovedStep(s: seq<Byte>, h: nat, row: nat, stride: nat, tight: nat)
    requires row < h && Movable(h, stride, tight) && RowsFit(|s|, h, stride, tight)
    requires CompactAfter(s, row, stride, tight)
    ensures CompactAfter(s, row + 1, stride, tight)
  {
    RowFits(|s|, h, stride, tight, row);
    if row + 1 < h {
      RowFits(|s|, h, stride, tight, row + 1);
    }
    MovedNext(s, Compact(s, row, stride, tight), row, stride, tight);
    CopiedNext(s, Compact(s, row, stride, tight), row, stride, tight);
  }

  lemma {:induction false} RowsAfter(s: seq<Byte>, h: nat, row: nat, stride: nat, tight: nat)
    requires row <= h && Movable(h, stride, tight) && RowsFit(|s|, h, stride, tight)
    requires CompactAfter(s, row, stride, tight)
    ensures CompactAfter(s, h, stride, tight)
    decreases h - row
  {
    if row < h {
      MovedStep(s, h, row, stride, tight);
      RowsAfter(s, h, row + 1, stride, tight);
    }
  }

  lemma {:induction false} MovedIsRows(s: seq<Byte>, h: nat, stride: nat, tight: nat)
    requires h >= 1 && Movable(h, stride, tight) && tight <= |s| && RowsFit(|s|, h, stride, tight)
    ensures CompactAfter(s, h, stride, tight)
  {
    FirstRowCompact(s, stride, tight);
    RowsAfter(s, h, 1, stride, tight);
  }

  /** In place or row by row, the bytes come out the same, for any height and long enough buffer. */
  lemma {:induction false} DepaddedIsRows(s: seq<Byte>, h: nat, stride: nat, tight: nat)
    requires h >= 1 && Movable(h, stride, tight)
    requires Offset(h - 1, stride) + tight <= |s| && RowsFit(|s|, h, stride, tight)
    ensures var d := Depadded(s, h, stride, tight);
      Offset(h, tight) <= |d| && d[..Offset(h, tight)] == Rows(s, h, stride, tight) && (stride != tight ==> |d| == Offset(h, tight))
  {
    if stride != tight {
      TruncatedIsRows(s, h, stride, tight);
    } else {
      RowsWhole(s, h, tight);
    }
  }

  lemma {:induction false} TruncatedIsRows(s: seq<Byte>, h: nat, stride: nat, tight: nat)
    requires h >= 1 && Movable(h, stride, tight) && stride != tight
    requires Offset(h - 1, stride) + tight <= |s| && RowsFit(|s|, h, stride, tight)
    ensures Depadded(s, h, stride, tight) == Rows(s, h, stride, tight)
    ensures |Depadded(s, h, stride, tight)| == Offset(h, tight)
  {
    MovedIsRows(s, h, stride, tight);
    RowsLength(s, h, stride, tight);
    assert Compact(s, h, stride, tight)[..Offset(h, tight)] == Rows(s, h, stride, tight);
  }

  lemma {:induction false} RowsWhole(s: seq<Byte>, h: nat, tight: nat)
    requires h > 0 ==> Offset(h - 1, tight) + tight <= |s|
    ensures Offset(h, tight) <= |s|
    ensures Rows(s, h, tight, tight) == s[..Offset(h, tight)]
  {
    if h > 0 {
      OffsetOfLater(h - 1, h, tight);
      RowsWhole(s, h - 1, tight);
    }
  }

  /** Byte `c` of row `y` after de-padding is that byte of the row as it was delivered. */
  lemma {:induction false} DepaddedAt(s: seq<Byte>, h: nat, stride: nat, tight: nat, y: nat, c: nat)
    requires y < h && c < tight && Movable(h, stride, tight)
    requires Offset(h - 1, stride) + tight <= |s| && RowsFit(|s|, h, stride, tight)
    ensures Offset(y, tight) + c < |Depadded(s, h, stride, tight)| && Offset(y, stride) + c < |s|
    ensures Depadded(s, h, stride, tight)[Offset(y, tight) + c] == s[Offset(y, stride) + c]
  {
    DepaddedIsRows(s, h, stride, tight);
    RowsAt(s, h, stride, tight, y, c);
    var d, n := Depadded(s, h, stride, tight), Offset(h, tight);
    assert d[..n][Offset(y, tight) + c] == d[Offset(y, tight) + c];
  }

  // -------------------------------------------------------------------------
  // A stride below the width of a row
  // -------------------------------------------------------------------------

  lemma {:induction false} LaterMovesKeep(s: seq<Byte>, h: nat, stride: nat, tight: nat)
    requires h >= 3 && RowsFit(|s|, h, stride, tight) && RowsFit(|s|, 3, stride, tight)
    ensures Offset(3, tight) <= |s|
    ensures Moved(s, h, stride, tight)[..Offset(3, tight)] == Moved(s, 3, stride, tight)[..Offset(3, tight)]
  {
    if h > 3 {
      RowFits(|s|, h, stride, tight, h - 1);
      OffsetOfLater(3, h - 1, tight);
      LaterMovesKeep(s, h - 1, stride, tight);
      CopyKeepsFront(Moved(s, h - 1, stride, tight), Offset(h - 1, stride), tight, Offset(h - 1, tight), Offset(3, tight));
    }
  }

  lemma {:induction false} CopyKeepsFront(s: seq<Byte>, src: nat, n: nat, dst: nat, front: nat)
    requires src + n <= |s| && dst + n <= |s| && front <= dst
    ensures CopiedWithin(s, src, n, dst)[..front] == s[..front]
  {
  }

  lemma {:induction false} SmallOffsets(width: nat)
    ensures Offset(1, width) == width && Offset(2, width) == 2 * width && Offset(3, width) == 3 * width
  {
    assert Offset(2, width) == Offset(1, width) + width;
  }

  lemma {:induction false} TwoMoves(s: seq<Byte>, stride: nat, tight: nat)
    requires RowsFit(|s|, 3, stride, tight) && 3 * tight <= |s| && 2 * stride + tight <= |s|
    ensures Moved(s, 3, stride, tight) ==
              CopiedWithin(CopiedWithin(s, stride, tight, tight), 2 * stride, tight, 2 * tight)
  {
    SmallOffsets(stride);
    SmallOffsets(tight);
    RowFits(|s|, 3, stride, tight, 2);
    assert Moved(s, 1, stride, tight) == s;
    assert Moved(s, 2, stride, tight) == CopiedWithin(s, stride, tight, tight);
  }

  /** A byte copied by one move, then by another from where the first put it. */
  lemma {:induction false} CopiedTwice(s: seq<Byte>, n: nat, src: nat, dst: nat, src2: nat, dst2: nat, p: nat)
    requires src + n <= |s| && dst + n <= |s| && src2 + n <= |s| && dst2 + n <= |s|
    requires src2 <= p < src2 + n && dst <= p < dst + n
    ensures CopiedWithin(CopiedWithin(s, src, n, dst), src2, n, dst2)[dst2 + (p - src2)] == s[src + (p - dst)]
  {
    CopiedByte(CopiedWithin(s, src, n, dst), src2, n, dst2, dst2 + (p - src2));
    CopiedByte(s, src, n, dst, p);
  }

  /** Byte p of the third row, as far as the move of the second has gone over it. */
  lemma {:induction false} ThirdRow(s: seq<Byte>, stride: nat, tight: nat, p: nat)
    requires RowsFit(|s|, 3, stride, tight) && 3 * tight <= |s| && 2 * stride + tight <= |s|
    requires 2 * stride <= p < 2 * stride + tight && tight <= p < 2 * tight
    ensures Moved(s, 3, stride, tight)[2 * tight + (p - 2 * stride)] == s[stride + (p - tight)]
  {
    TwoMoves(s, stride, tight);
    CopiedTwice(s, tight, stride, tight, 2 * stride, 2 * tight, p);
  }

  lemma {:induction false} ThirdRowStays(s: seq<Byte>, h: nat, stride: nat, tight: nat, at: nat)
    requires h >= 3 && RowsFit(|s|, h, stride, tight) && RowsFit(|s|, 3, stride, tight)
    requires stride != tight && at < 3 * tight <= Offset(h, tight)
    ensures at < |Depadded(s, h, stride, tight)|
    ensures at < |s| && Depadded(s, h, stride, tight)[at] == Moved(s, 3, stride, tight)[at]
  {
    SmallOffsets(tight);
    LaterMovesKeep(s, h, stride, tight);
    var front, m := 3 * tight, Moved(s, h, stride, tight);
    assert m[at] == m[..front][at];
  }

  /**
    Otherwise rows overwrite rows still to be moved: with a third row and a stride below the
    width of a row, but not zero, there are bytes of any fitting length that come out wrong.
  */
  lemma {:induction false} ShortStrideCorrupts(length: nat, h: nat, stride: nat, tight: nat) returns (s: seq<Byte>, c: nat)
    requires !Movable(h, stride, tight) && RowsFit(length, h, stride, tight)
    ensures |s| == length && c < tight && 2 * tight + c < |Depadded(s, h, stride, tight)|
    ensures 2 * stride + c < |s| && Depadded(s, h, stride, tight)[2 * tight + c] != s[2 * stride + c]
  {
    var p := Max(tight, 2 * stride);
    c := p - 2 * stride;
    s := seq(length, i => if i == p then 1 else 0);
    SpaceForThree(length, h, stride, tight);
    ThirdRow(s, stride, tight, p);
    ThirdRowStays(s, h, stride, tight, 2 * tight + c);
  }

  lemma {:induction false} SpaceForThree(length: nat, h: nat, stride: nat, tight: nat)
    requires h >= 3 && RowsFit(length, h, stride, tight)
    ensures RowsFit(length, 3, stride, tight) && 3 * tight <= length && 2 * stride + tight <= length
    ensures 3 * tight <= Offset(h, tight)
  {
    SmallOffsets(stride);
    SmallOffsets(tight);
    if h > 3 {
      RowFits(length, h, stride, tight, 3);
    }
    OffsetOfLater(3, h, tight);
  }

  /** For a shape that fits: in place and row by row agree on all bytes if and only if the rows are movable. */
  lemma {:induction false} InPlaceIsExact(length: nat, h: nat, stride: nat, tight: nat)
    requires h >= 1 && Offset(h - 1, stride) + tight <= length && RowsFit(length, h, stride, tight)
    ensures Movable(h, stride, tight) <==>
              forall s: seq<Byte> | |s| == length :: Agrees(s, h, stride, tight)
  {
    if Movable(h, stride, tight) {
      forall s: seq<Byte> | |s| == length ensures Agrees(s, h, stride, tight) {
        DepaddedIsRows(s, h, stride, tight);
      }
    } else {
      var s, c := ShortStrideCorrupts(length, h, stride, tight);
      if Agrees(s, h, stride, tight) {
        AgreesAt(s, h, stride, tight, c);
      }
    }
  }

  ghost predicate Agrees(s: seq<Byte>, h: nat, stride: nat, tight: nat)
    requires h >= 1 && Offset(h - 1, stride) + tight <= |s| && RowsFit(|s|, h, stride, tight)
  {
    var d := Depadded(s, h, stride, tight);
    Offset(h, tight) <= |d| && d[..Offset(h, tight)] == Rows(s, h, stride, tight)
  }

  lemma {:induction false} ThirdRowAt(s: seq<Byte>, h: nat, stride: nat, tight: nat, c: nat)
    requires h > 2 && c < tight && Offset(h - 1, stride) + tight <= |s|
    ensures 2 * tight + c < |Rows(s, h, stride, tight)| == Offset(h, tight) && 2 * stride + c < |s|
    ensures Rows(s, h, stride, tight)[2 * tight + c] == s[2 * stride + c]
  {
    SmallOffsets(stride);
    SmallOffsets(tight);
    RowsAt(s, h, stride, tight, 2, c);
  }

  lemma {:induction false} AgreesAt(s: seq<Byte>, h: nat, stride: nat, tight: nat, c: nat)
    requires h > 2 && c < tight && Offset(h - 1, stride) + tight <= |s| && RowsFit(|s|, h, stride, tight)
    requires Agrees(s, h, stride, tight)
    ensures 2 * tight + c < |Depadded(s, h, stride, tight)| && 2 * stride + c < |s|
    ensures Depadded(s, h, stride, tight)[2 * tight + c] == s[2 * stride + c]
  {
    ThirdRowAt(s, h, stride, tight, c);
    SameFront(Depadded(s, h, stride, tight), Rows(s, h, stride, tight), 2 * tight + c);
  }

  lemma {:induction false} SameFront(d: seq<Byte>, rows: seq<Byte>, k: nat)
    requires k < |rows| <= |d| && d[..|rows|] == rows
    ensures d[k] == rows[k]
  {
    assert d[..|rows|][k] == d[k];
  }
}
