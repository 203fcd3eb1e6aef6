/**
  The decode pipe as an object, and what holds of everything it ever does to its
  decoder, whatever bytes it is fed and whenever it is reset or closed.
*/
module DecodePipe {
  import opened Prelude
  import opened Boxes
  import W = WebCodecs

  class WebCodecsPipe {
    var decoder: bool
    var seenKeyframe: bool
    var nalLenSize: nat
    var timestamp: nat
    var calls: seq<W.Call>

    function View(): W.Pipe
      reads this
    {
      W.Pipe(decoder, seenKeyframe, nalLenSize, timestamp, calls)
    }

    constructor ()
      ensures View() == W.NEW_PIPE
    {
      decoder, seenKeyframe, nalLenSize, timestamp, calls := false, false, 4, 0, [];
    }

    method EnsureDecoder(avcC: seq<Byte>, size: Option<(nat, nat)>)
      modifies this
      ensures View() == W.EnsureDecoder(old(View()), avcC, size)
    {
      if decoder {
        calls := calls + [W.CloseDecoder];
      }
      decoder := true;
      calls := calls + [W.Configure(avcC, size)];
      nalLenSize := W.NalLengthSize(avcC);
      seenKeyframe := false;
    }

    method FeedInitSegment(view: seq<Byte>, moov: Header) returns (status: W.Status)
      modifies this
      ensures W.Init(old(View()), W.AvcC(view, moov), W.SizeHint(view, moov)) ==
                match status
                case Going => W.Got(View())
                case Threw => W.Throws
                case Looped => W.Loops
      ensures status != W.Going ==> View() == old(View())
    {
      match W.AvcC(view, moov) {
        case Absent =>
          calls := calls + [W.Complaint];
          return W.Going;
        case Loops => return W.Looped;
        case Throws => return W.Threw;
        case Got(record) =>
          match W.SizeHint(view, moov) {
            case Loops => return W.Looped;
            case Throws => return W.Threw;
            case Absent => EnsureDecoder(record, None);
            case Got(size) => EnsureDecoder(record, Some(size));
          }
          return W.Going;
      }
    }

    method FeedMediaFragment(data: seq<Byte>)
      modifies this
      ensures View() == W.Media(old(View()), data)
    {
      if !decoder {
        return;
      }
      var isKey := W.FirstNaluType(data, nalLenSize) == 5;
      if !seenKeyframe && !isKey {
        return;
      }
      seenKeyframe := true;
      calls := calls + [W.Chunk(isKey, timestamp, data)];
      timestamp := timestamp + W.FRAME_DURATION_US;
    }

    method Feed(view: seq<Byte>) returns (status: W.Status)
      modifies this
      ensures W.Fed(old(View()), view).pipe == View()
      ensures W.Fed(old(View()), view).status == status
    {
      var offset := 0;
      var pending: Option<seq<Byte>> := None;
      ghost var whole := W.WalkFrom(W.Walk(View(), None, W.Going), view, 0);
      while offset < |view|
        invariant whole == W.WalkFrom(W.Walk(View(), pending, W.Going), view, offset)
        decreases |view| - offset
      {
        var h := ReadBoxHeader(view, offset);
        if h.None? {
          break;
        }
        if h.value.kind == W.MOOV {
          status := FeedInitSegment(view, h.value);
          if status != W.Going {
            return;
          }
        } else if h.value.kind == W.MDAT {
          var data := W.Body(view, h.value);
          if !data.Got? {
            return W.Threw;
          }
          pending := Some(data.value);
        }
        if h.value.end <= offset {
          return W.Looped;
        }
        offset := h.value.end;
      }
      assert whole == W.Walk(View(), pending, W.Going);
      if pending.Some? {
        FeedMediaFragment(pending.value);
      }
      return W.Going;
    }

    method Reset()
      modifies this
      ensures View() == W.Reset(old(View()))
    {
      seenKeyframe := false;
      timestamp := 0;
      calls := calls + [W.Restart];
    }

    method Close()
      modifies this
      ensures View() == W.Close(old(View()))
    {
      if decoder {
        calls := calls + [W.CloseDecoder];
      }
      decoder := false;
    }
  }

  // -------------------------------------------------------------------------
  // When feeding ends
  // -------------------------------------------------------------------------

  /** The boxes met, and passed over, by the searches of an extraction. */
  function EntryMet(view: seq<Byte>, entry: Header): set<nat> {
    FindMet(view, entry.bodyStart + 78, entry.end, W.AVCC)
  }

  /** The second search is made only when the first finds nothing. */
  function Avc3Met(view: seq<Byte>, from: nat, end: nat): set<nat> {
    var avc3 := Find(view, from, end, W.AVC3);
    FindMet(view, from, end, W.AVC3) + if avc3.Hit? then EntryMet(view, avc3.header) else {}
  }

  function TableMet(view: seq<Byte>, stsd: Header): set<nat> {
    var from := stsd.bodyStart + 8;
    if from >= stsd.end then {}
    else
      FindMet(view, from, stsd.end, W.AVC1) +
      match Find(view, from, stsd.end, W.AVC1)
      case Hit(entry) => EntryMet(view, entry)
      case Miss => Avc3Met(view, from, stsd.end)
      case Stuck => {}
  }

  function AvcCMet(view: seq<Byte>, moov: Header): set<nat> {
    var stsd := FindPath(view, moov.bodyStart, moov.end, W.STSD_PATH);
    PathMet(view, moov.bodyStart, moov.end, W.STSD_PATH) + if stsd.Hit? then TableMet(view, stsd.header) else {}
  }

  /** The size hint is searched for only when a decoder record was found. */
  function MovieMet(view: seq<Byte>, moov: Header): set<nat> {
    AvcCMet(view, moov) +
    if W.AvcC(view, moov).Got? then PathMet(view, moov.bodyStart, moov.end, W.TKHD_PATH) else {}
  }

  /** The boxes met by a walk: the top-level ones it gets past, and those inside the movies it visits. */
  function WalkMet(w: W.Walk, view: seq<Byte>, offset: nat): set<nat>
    decreases |view| - offset
  {
    if offset >= |view| || ReadBoxHeader(view, offset).None? then {}
    else
      var h := ReadBoxHeader(view, offset).value;
      var next := W.VisitHeader(w, view, h);
      (if h.kind == W.MOOV then MovieMet(view, h) else {}) +
      if next.status != W.Going then {}
      else if h.end <= offset then {offset}
      else {offset} + WalkMet(next, view, h.end)
  }

  lemma {:induction false} EntrySticksOnZero(view: seq<Byte>, entry: Header)
    ensures W.AvcCOfEntry(view, entry) == W.Loops <==> HasZero(view, EntryMet(view, entry))
  {
    FindSticksOnZero(view, entry.bodyStart + 78, entry.end, W.AVCC);
  }

  lemma {:induction false} Avc3SticksOnZero(view: seq<Byte>, from: nat, end: nat)
    ensures var avc3 := Find(view, from, end, W.AVC3);
      (avc3.Stuck? || (avc3.Hit? && W.AvcCOfEntry(view, avc3.header) == W.Loops)) <==> HasZero(view, Avc3Met(view, from, end))
  {
    var avc3 := Find(view, from, end, W.AVC3);
    FindSticksOnZero(view, from, end, W.AVC3);
    HasZeroAt(view, from);
    if avc3.Hit? {
      EntrySticksOnZero(view, avc3.header);
      HasZeroIn(view, FindMet(view, from, end, W.AVC3), EntryMet(view, avc3.header));
    } else {
      HasZeroIn(view, FindMet(view, from, end, W.AVC3), {});
    }
  }

  lemma {:induction false} TableSticksOnZero(view: seq<Byte>, stsd: Header)
    ensures W.AvcCOfTable(view, stsd) == W.Loops <==> HasZero(view, TableMet(view, stsd))
  {
    var from := stsd.bodyStart + 8;
    HasZeroAt(view, from);
    if from < stsd.end {
      var met := FindMet(view, from, stsd.end, W.AVC1);
      FindSticksOnZero(view, from, stsd.end, W.AVC1);
      match Find(view, from, stsd.end, W.AVC1)
      case Hit(entry) =>
        EntrySticksOnZero(view, entry);
        HasZeroIn(view, met, EntryMet(view, entry));
      case Miss =>
        Avc3SticksOnZero(view, from, stsd.end);
        HasZeroIn(view, met, Avc3Met(view, from, stsd.end));
      case Stuck =>
        HasZeroIn(view, met, {});
    }
  }

  lemma {:induction false} AvcCSticksOnZero(view: seq<Byte>, moov: Header)
    ensures W.AvcC(view, moov) == W.Loops <==> HasZero(view, AvcCMet(view, moov))
  {
    var met := PathMet(view, moov.bodyStart, moov.end, W.STSD_PATH);
    PathSticksOnZero(view, moov.bodyStart, moov.end, W.STSD_PATH);
    HasZeroAt(view, 0);
    var stsd := FindPath(view, moov.bodyStart, moov.end, W.STSD_PATH);
    if stsd.Hit? {
      TableSticksOnZero(view, stsd.header);
      HasZeroIn(view, met, TableMet(view, stsd.header));
    } else {
      HasZeroIn(view, met, {});
    }
  }

  lemma {:induction false} HintSticksOnZero(view: seq<Byte>, moov: Header)
    ensures W.SizeHint(view, moov) == W.Loops <==>
              HasZero(view, PathMet(view, moov.bodyStart, moov.end, W.TKHD_PATH))
  {
    PathSticksOnZero(view, moov.bodyStart, moov.end, W.TKHD_PATH);
  }

  lemma {:induction false} MovieSticksOnZero(p: W.Pipe, view: seq<Byte>, moov: Header)
    ensures W.Init(p, W.AvcC(view, moov), W.SizeHint(view, moov)) == W.Loops <==> HasZero(view, MovieMet(view, moov))
  {
    AvcCSticksOnZero(view, moov);
    HintSticksOnZero(view, moov);
    HasZeroAt(view, 0);
    if W.AvcC(view, moov).Got? {
      HasZeroIn(view, AvcCMet(view, moov), PathMet(view, moov.bodyStart, moov.end, W.TKHD_PATH));
    } else {
      HasZeroIn(view, AvcCMet(view, moov), {});
    }
  }

  lemma {:induction false} VisitSticksOnZero(w: W.Walk, view: seq<Byte>, h: Header)
    requires w.status == W.Going
    ensures W.VisitHeader(w, view, h).status == W.Looped <==> h.kind == W.MOOV && HasZero(view, MovieMet(view, h))
  {
    MovieSticksOnZero(w.pipe, view, h);
  }

  lemma {:induction false} WalkSticksOnZero(w: W.Walk, view: seq<Byte>, offset: nat)
    requires w.status == W.Going
    ensures W.WalkFrom(w, view, offset).status == W.Looped <==> HasZero(view, WalkMet(w, view, offset))
    decreases |view| - offset
  {
    HasZeroAt(view, offset);
    if offset < |view| && ReadBoxHeader(view, offset).Some? {
      var h := ReadBoxHeader(view, offset).value;
      var next := W.VisitHeader(w, view, h);
      var inside := if h.kind == W.MOOV then MovieMet(view, h) else {};
      VisitSticksOnZero(w, view, h);
      StuckOnlyOnZero(view, offset);
      if next.status != W.Going {
        HasZeroIn(view, inside, {});
      } else if h.end <= offset {
        HasZeroIn(view, inside, {offset});
      } else {
        WalkSticksOnZero(next, view, h.end);
        HasZeroIn(view, {offset}, WalkMet(next, view, h.end));
        HasZeroIn(view, inside, {offset} + WalkMet(next, view, h.end));
      }
    }
  }

  /**
    Over all inputs, however malformed: feeding never ends if and only if the walk, or a search
    in a movie it visits, meets a box with a 64-bit size of zero; what payloads hold is no matter.
  */
  lemma {:induction false} FeedLoopsExactly(p: W.Pipe, view: seq<Byte>)
    ensures W.Fed(p, view).status == W.Looped <==> HasZero(view, WalkMet(W.Walk(p, None, W.Going), view, 0))
  {
    WalkSticksOnZero(W.Walk(p, None, W.Going), view, 0);
  }

  /** So without such bytes anywhere it ends. */
  lemma {:induction false} FeedEnds(p: W.Pipe, view: seq<Byte>)
    requires forall offset: nat | offset < |view| :: !ZeroAt(view, offset)
    ensures W.Fed(p, view).status != W.Looped
  {
    FeedLoopsExactly(p, view);
    forall at: nat | ZeroAt(view, at) ensures at < |view| {
    }
  }

  /** And a leading box of that size, neither movie nor media, holds it up forever. */
  lemma {:induction false} ZeroSizeLoops(p: W.Pipe, view: seq<Byte>)
    requires ZeroAt(view, 0) && Uint32(view, 4) != W.MOOV && Uint32(view, 4) != W.MDAT
    ensures W.Fed(p, view) == W.Walk(p, None, W.Looped)
  {
    StuckOnlyOnZero(view, 0);
  }

  // -------------------------------------------------------------------------
  // Runs
  // -------------------------------------------------------------------------

  datatype Op = Feed(view: seq<Byte>) | Reset | Close

  function Apply(p: W.Pipe, op: Op): W.Pipe {
    match op
    case Feed(view) => W.Fed(p, view).pipe
    case Reset => W.Reset(p)
    case Close => W.Close(p)
  }

  function Run(p: W.Pipe, ops: seq<Op>): W.Pipe {
    if ops == [] then p else Apply(Run(p, ops[..|ops| - 1]), ops[|ops| - 1])
  }

  // -------------------------------------------------------------------------
  // What the calls tell
  // -------------------------------------------------------------------------

  /** A key picture came since the decoder was last set up, and since the last reset. */
  predicate Primed(calls: seq<W.Call>) {
    calls != [] &&
      var c := calls[|calls| - 1];
      if c.Configure? || c.Restart? then false
      else (c.Chunk? && c.key) || Primed(calls[..|calls| - 1])
  }

  predicate Open(calls: seq<W.Call>) {
    calls != [] &&
      var c := calls[|calls| - 1];
      c.Configure? || (!c.CloseDecoder? && Open(calls[..|calls| - 1]))
  }

  /** The length size of the decoder last set up. */
  function LengthSize(calls: seq<W.Call>): nat {
    if calls == [] then 4
    else
      var c := calls[|calls| - 1];
      if c.Configure? then W.NalLengthSize(c.description) else LengthSize(calls[..|calls| - 1])
  }

  function ChunksSinceReset(calls: seq<W.Call>): nat {
    if calls == [] then 0
    else
      var c := calls[|calls| - 1];
      if c.Restart? then 0 else ChunksSinceReset(calls[..|calls| - 1]) + if c.Chunk? then 1 else 0
  }

  /**
    A call that the platform's decoder can take after `past`: at most one decoder at a
    time; chunks only to an open one, a delta only after a key, marked by what they
    hold, and stamped one frame apart.
  */
  predicate Proper(past: seq<W.Call>, c: W.Call) {
    match c
    case Configure(_, _) => !Open(past)
    case CloseDecoder => Open(past)
    case Chunk(key, timestamp, data) =>
      && Open(past)
      && (key || Primed(past))
      && (key <==> W.FirstNaluType(data, LengthSize(past)) == 5)
      && timestamp == ChunksSinceReset(past) * W.FRAME_DURATION_US
    case _ => true
  }

  predicate AllProper(calls: seq<W.Call>) {
    forall k: nat | k < |calls| :: Proper(calls[..k], calls[k])
  }

  predicate Consistent(p: W.Pipe) {
    && p.decoder == Open(p.calls)
    && p.seenKeyframe == Primed(p.calls)
    && p.nalLenSize == LengthSize(p.calls)
    && p.timestamp == ChunksSinceReset(p.calls) * W.FRAME_DURATION_US
    && AllProper(p.calls)
  }

  lemma {:induction false} Extended(calls: seq<W.Call>, c: W.Call)
    requires AllProper(calls) && Proper(calls, c)
    ensures AllProper(calls + [c])
    ensures Primed(calls + [c]) == (!c.Configure? && !c.Restart? && ((c.Chunk? && c.key) || Primed(calls)))
    ensures Open(calls + [c]) == (c.Configure? || (!c.CloseDecoder? && Open(calls)))
    ensures LengthSize(calls + [c]) == if c.Configure? then W.NalLengthSize(c.description) else LengthSize(calls)
    ensures ChunksSinceReset(calls + [c]) ==
              if c.Restart? then 0 else ChunksSinceReset(calls) + if c.Chunk? then 1 else 0
  {
    var more := calls + [c];
    assert more[..|more| - 1] == calls;
    forall k: nat | k < |more| ensures Proper(more[..k], more[k]) {
      assert k < |calls| ==> more[..k] == calls[..k];
    }
  }

  lemma {:induction false} CloseKeeps(p: W.Pipe)
    requires Consistent(p)
    ensures Consistent(W.Close(p))
  {
    if p.decoder {
      Extended(p.calls, W.CloseDecoder);
    }
  }

  lemma {:induction false} ResetKeeps(p: W.Pipe)
    requires Consistent(p)
    ensures Consistent(W.Reset(p))
  {
    Extended(p.calls, W.Restart);
  }

  lemma {:induction false} EnsureKeeps(p: W.Pipe, avcC: seq<Byte>, size: Option<(nat, nat)>)
    requires Consistent(p)
    ensures Consistent(W.EnsureDecoder(p, avcC, size))
  {
    CloseKeeps(p);
    Extended(W.Close(p).calls, W.Configure(avcC, size));
  }

  lemma {:induction false} MediaKeeps(p: W.Pipe, data: seq<Byte>)
    requires Consistent(p)
    ensures Consistent(W.Media(p, data))
  {
    if p.decoder && (p.seenKeyframe || W.IsKey(p, data)) {
      Extended(p.calls, W.Chunk(W.IsKey(p, data), p.timestamp, data));
    }
  }

  lemma {:induction false} VisitKeeps(w: W.Walk, view: seq<Byte>, h: Header)
    requires Consistent(w.pipe)
    ensures Consistent(W.VisitHeader(w, view, h).pipe)
  {
    var avcC, hint := W.AvcC(view, h), W.SizeHint(view, h);
    if avcC.Absent? {
      Extended(w.pipe.calls, W.Complaint);
    } else if avcC.Got? && hint.Got? {
      EnsureKeeps(w.pipe, avcC.value, Some(hint.value));
    } else if avcC.Got? {
      EnsureKeeps(w.pipe, avcC.value, None);
    }
  }

  lemma {:induction false} WalkKeeps(w: W.Walk, view: seq<Byte>, offset: nat)
    requires Consistent(w.pipe)
    ensures Consistent(W.WalkFrom(w, view, offset).pipe)
    decreases |view| - offset
  {
    if offset < |view| && ReadBoxHeader(view, offset).Some? {
      var h := ReadBoxHeader(view, offset).value;
      VisitKeeps(w, view, h);
      var next := W.VisitHeader(w, view, h);
      if next.status == W.Going && h.end > offset {
        WalkKeeps(next, view, h.end);
      }
    }
  }

  lemma {:induction false} StepKeeps(p: W.Pipe, op: Op)
    requires Consistent(p)
    ensures Consistent(Apply(p, op))
  {
    match op
    case Feed(view) =>
      WalkKeeps(W.Walk(p, None, W.Going), view, 0);
      var w := W.WalkFrom(W.Walk(p, None, W.Going), view, 0);
      if w.pending.Some? {
        MediaKeeps(w.pipe, w.pending.value);
      }
    case Reset => ResetKeeps(p);
    case Close => CloseKeeps(p);
  }

  /** Over every run on arbitrary bytes, the decoder is only ever called properly. */
  lemma {:induction false} DecoderIsCalledProperly(ops: seq<Op>)
    ensures Consistent(Run(W.NEW_PIPE, ops))
  {
    if ops != [] {
      DecoderIsCalledProperly(ops[..|ops| - 1]);
      StepKeeps(Run(W.NEW_PIPE, ops[..|ops| - 1]), ops[|ops| - 1]);
    }
  }

  /** Between a delta chunk and the set-up or reset before it, there is a key chunk. */
  lemma {:induction false} DeltaFollowsKey(ops: seq<Op>, k: nat)
    requires var calls := Run(W.NEW_PIPE, ops).calls; k < |calls| && calls[k].Chunk? && !calls[k].key
    ensures var calls := Run(W.NEW_PIPE, ops).calls;
      exists j: nat :: j < k && calls[j].Chunk? && calls[j].key && Undisturbed(calls, j, k)
  {
    DecoderIsCalledProperly(ops);
    var calls := Run(W.NEW_PIPE, ops).calls;
    assert Proper(calls[..k], calls[k]);
    var j := PrimedByKey(calls[..k]);
    assert calls[j] == calls[..k][j];
    assert Undisturbed(calls, j, k);
  }

  /** No set-up and no reset between the two. */
  predicate Undisturbed(calls: seq<W.Call>, from: nat, to: nat) {
    forall i: nat | from < i < to && i < |calls| :: !calls[i].Configure? && !calls[i].Restart?
  }

  lemma {:induction false} PrimedByKey(calls: seq<W.Call>) returns (j: nat)
    requires Primed(calls)
    ensures j < |calls| && calls[j].Chunk? && calls[j].key && Undisturbed(calls, j, |calls|)
  {
    j := |calls| - 1;
    if !(calls[j].Chunk? && calls[j].key) {
      var rest := calls[..|calls| - 1];
      j := PrimedByKey(rest);
      forall i: nat | j < i < |calls| ensures !calls[i].Configure? && !calls[i].Restart? {
        assert i < |rest| ==> calls[i] == rest[i];
      }
    }
  }
}
