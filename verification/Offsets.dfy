/** Where the rows of a pixel buffer start, and slices of such buffers. */
module Offsets {
  import opened Prelude

  /** Where a row starts, by repeated addition. */
  function Offset(row: nat, width: nat): nat {
    if row == 0 then 0 else Offset(row - 1, width) + width
  }

  lemma {:induction false} OffsetIsProduct(row: nat, width: nat)
    ensures Offset(row, width) == row * width
  {
    if row > 0 {
      OffsetIsProduct(row - 1, width);
    }
  }

  lemma {:induction false} OffsetOfLater(a: nat, b: nat, width: nat)
    requires a <= b
    ensures Offset(a, width) <= Offset(b, width)
    ensures a < b ==> Offset(a, width) + width <= Offset(b, width)
  {
    if a < b {
      OffsetOfLater(a, b - 1, width);
    }
  }

  lemma {:induction false} OffsetOfWider(row: nat, a: nat, b: nat)
    requires a <= b
    ensures Offset(row, a) <= Offset(row, b)
    ensures Offset(row, 0) == 0
  {
    if row > 0 {
      OffsetOfWider(row - 1, a, b);
    }
  }

  // -------------------------------------------------------------------------
  // Slices
  // -------------------------------------------------------------------------

  lemma {:induction false} NestedSlice(s: seq<Byte>, start: nat, length: nat, from: nat, n: nat)
    requires start + length <= |s| && from + n <= length
    ensures s[start + from..start + from + n] == s[start..start + length][from..from + n]
  {
    var inner, outer := s[start..start + length], s[start + from..start + from + n];
    assert |inner[from..from + n]| == |outer|;
    forall k | 0 <= k < n ensures inner[from..from + n][k] == outer[k] {
      assert inner[from..from + n][k] == inner[from + k];
    }
  }

  lemma {:induction false} SliceOfSlice(s: seq<Byte>, part: seq<Byte>, start: nat, from: nat, n: nat)
    requires start + |part| <= |s| && s[start..start + |part|] == part && from + n <= |part|
    ensures s[start + from..start + from + n] == part[from..from + n]
  {
    NestedSlice(s, start, |part|, from, n);
  }

  lemma {:induction false} SliceOfFront(s: seq<Byte>, front: seq<Byte>, from: nat, n: nat)
    requires |front| <= |s| && s[..|front|] == front && from + n <= |front|
    ensures s[from..from + n] == front[from..from + n]
  {
    SliceOfSlice(s, front, 0, from, n);
  }

  lemma {:induction false} SliceBehind(s: seq<Byte>, t: seq<Byte>, end: nat, at: nat, n: nat)
    requires end <= at && at + n <= |s| == |t| && s[end..] == t[end..]
    ensures s[at..at + n] == t[at..at + n]
  {
    forall k | at <= k < at + n ensures s[k] == t[k] {
      assert s[k] == s[end..][k - end] && t[k] == t[end..][k - end];
    }
  }
}
