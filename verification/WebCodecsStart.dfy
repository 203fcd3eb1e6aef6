/**
  A stream as the muxer writes it, fed to the decode pipe: the length size of the decoder
  record and the type of the first NAL unit are what was printed, so chunks are marked right.
*/
module WebCodecsStart {
  import opened Prelude
  import opened Boxes
  import opened WebCodecs

  /** A decoder record for length prefixes of `n` bytes: its fifth byte ends in n - 1, below six bits of anything. */
  function Record(head: seq<Byte>, upper: nat, n: nat, tail: seq<Byte>): seq<Byte>
    requires |head| == 4 && upper < 64 && 1 <= n <= 4
  {
    head + [4 * upper + (n - 1)] + tail
  }

  /** An access unit: its first NAL unit behind a prefix of `n` bytes, and the rest. */
  function AccessUnit(nalu: seq<Byte>, n: nat, rest: seq<Byte>): seq<Byte> {
    Bytes(|nalu|, n) + nalu + rest
  }

  const IDR_SLICE := 5

  lemma {:induction false} RecordGivesLengthSize(head: seq<Byte>, upper: nat, n: nat, tail: seq<Byte>)
    requires |head| == 4 && upper < 64 && 1 <= n <= 4
    ensures NalLengthSize(Record(head, upper, n, tail)) == n
  {
    assert Record(head, upper, n, tail)[4] == 4 * upper + (n - 1);
  }

  lemma {:induction false} UnitGivesType(nalu: seq<Byte>, n: nat, rest: seq<Byte>)
    requires nalu != []
    ensures FirstNaluType(AccessUnit(nalu, n, rest), n) == nalu[0] % 32
  {
    assert AccessUnit(nalu, n, rest)[n] == nalu[0];
  }

  lemma {:induction false} FeedOne(p: Pipe, b: Box)
    requires WellFormed(b) && StandardMovie(b) && (b.kind == MOOV || b.kind == MDAT)
    ensures var w := Fed(p, PrintAll([b]));
      && w.status == Going
      && w.pipe == if b.kind == MOOV then Movie(p, ContentOf(b)) else Media(p, Payload(b))
  {
    var bs := [b];
    assert bs[1..] == [];
    assert WellFormedAll(bs) && StandardMovies(bs);
    FeedPrinted(p, bs);
    assert Contents(bs) == [ContentOf(b)] && Contents(bs)[1..] == [];
    assert Movies(p, Contents(bs)) == if b.kind == MOOV then Movie(p, ContentOf(b)) else p;
  }

  /** The pipe after an init segment with this record. */
  lemma {:induction false} InitSegmentSetsUp(p: Pipe, moov: Box, head: seq<Byte>, upper: nat, n: nat, tail: seq<Byte>)
    requires WellFormed(moov) && moov.kind == MOOV && Standard(moov)
    requires |head| == 4 && upper < 64 && 1 <= n <= 4 && TreeAvcC(moov) == Got(Record(head, upper, n, tail))
    ensures var q := Fed(p, PrintAll([moov])).pipe;
      q.decoder && !q.seenKeyframe && q.nalLenSize == n && q.timestamp == p.timestamp
  {
    FeedOne(p, moov);
    RecordGivesLengthSize(head, upper, n, tail);
  }

  /**
    A fragment, fed to a pipe whose decoder has this length size: before a key picture only
    one goes through, and whatever goes through is marked by its first NAL unit.
  */
  lemma {:induction false} FragmentIsMarked(q: Pipe, mdat: Box, nalu: seq<Byte>, rest: seq<Byte>)
    requires WellFormed(mdat) && mdat.kind == MDAT && Payload(mdat) == AccessUnit(nalu, q.nalLenSize, rest)
    requires q.decoder && nalu != []
    ensures var r := Fed(q, PrintAll([mdat])).pipe; var key := nalu[0] % 32 == IDR_SLICE;
      if key || q.seenKeyframe
      then r.calls == q.calls + [Chunk(key, q.timestamp, Payload(mdat))] && r.seenKeyframe
      else r == q
  {
    FeedOne(q, mdat);
    UnitGivesType(nalu, q.nalLenSize, rest);
  }

  /** So a stream starts on its first key picture, with a prefix of any size, and with nothing before it. */
  lemma {:induction false} StreamStartsOnKey(p: Pipe, moov: Box, head: seq<Byte>, upper: nat, n: nat, tail: seq<Byte>,
                          mdat: Box, nalu: seq<Byte>, rest: seq<Byte>)
    requires WellFormed(moov) && moov.kind == MOOV && Standard(moov)
    requires |head| == 4 && upper < 64 && 1 <= n <= 4 && TreeAvcC(moov) == Got(Record(head, upper, n, tail))
    requires WellFormed(mdat) && mdat.kind == MDAT && nalu != [] && Payload(mdat) == AccessUnit(nalu, n, rest)
    ensures var q := Fed(p, PrintAll([moov])).pipe; var r := Fed(q, PrintAll([mdat])).pipe;
      r.calls == q.calls + if nalu[0] % 32 == IDR_SLICE then [Chunk(true, p.timestamp, Payload(mdat))] else []
  {
    InitSegmentSetsUp(p, moov, head, upper, n, tail);
    FragmentIsMarked(Fed(p, PrintAll([moov])).pipe, mdat, nalu, rest);
  }

  // -------------------------------------------------------------------------
  // The track header
  // -------------------------------------------------------------------------

  /** Bytes of the times, track number and duration of a track header: 64-bit times in version 1. */
  function TimesLength(version: Byte): nat {
    if version == 1 then 8 + 8 + 4 + 4 + 8 else 4 + 4 + 4 + 4 + 4
  }

  /**
    The body of a track header, section 8.3.2 of ISO/IEC 14496-12: version and flags, times and
    numbers, 8 reserved bytes, layer, group, volume, 2 reserved bytes, the matrix, width and height
    in 16.16 fixed point.
  */
  function TrackHeader(version: Byte, flags: seq<Byte>, times: seq<Byte>, fields: seq<Byte>, width: nat, height: nat): seq<Byte> {
    [version] + flags + times + fields + Bytes(width, 4) + Bytes(height, 4)
  }

  /** From a track header of either version the hint is the whole part of its width and height. */
  lemma {:induction false} HintOfTrackHeader(version: Byte, flags: seq<Byte>, times: seq<Byte>, fields: seq<Byte>, width: nat, height: nat)
    requires |flags| == 3 && |times| == TimesLength(version) && |fields| == 8 + 2 + 2 + 2 + 2 + 36
    requires width < U32 && height < U32
    ensures HintOf(TrackHeader(version, flags, times, fields, width, height)) == Got((width / 0x1_0000, height / 0x1_0000))
  {
    var front := [version] + flags + times + fields;
    var body := TrackHeader(version, flags, times, fields, width, height);
    var at := |front|;
    assert body == front + Bytes(width, 4) + Bytes(height, 4);
    assert At(body, 0, front + Bytes(width, 4) + Bytes(height, 4));
    ThreeParts(body, 0, front, Bytes(width, 4), Bytes(height, 4));
    NumberPrinted(body, at, width);
    NumberPrinted(body, at + 4, height);
    assert body[0] == version;
  }
}
