/**
  Frame sizes through the pipeline: every frame the encode thread dequeues has
  the input size of the latest Restart it dequeued, so a codec only ever sees
  frames of the size it was opened for.  This holds exactly as long as no
  capture has one of the zero widths `SafeCapture` excludes: a width of zero is
  also the capture thread's mark for "restart the encoder".
*/
module PipelineSizes {
  import opened Prelude
  import opened Scaling
  import opened Pipeline
  import opened PipelineRequests

  function LatestRestart(cs: seq<Command>): Option<Dims> {
    if cs == [] then None
    else if cs[|cs| - 1].Restart? then Some(cs[|cs| - 1].dims)
    else LatestRestart(cs[..|cs| - 1])
  }

  predicate FollowsRestart(cs: seq<Command>, size: Size) {
    LatestRestart(cs).Some? && LatestRestart(cs).value.input == size
  }

  /** Every frame among the commands has the input size of the Restart before it. */
  predicate Matched(cs: seq<Command>) {
    forall i :: 0 <= i < |cs| && cs[i].Encode? ==> FollowsRestart(cs[..i], cs[i].frame.size)
  }

  lemma {:induction false} AppendMatched(cs: seq<Command>, c: Command)
    requires Matched(cs) && (c.Encode? ==> FollowsRestart(cs, c.frame.size))
    ensures Matched(cs + [c])
    ensures LatestRestart(cs + [c]) == if c.Restart? then Some(c.dims) else LatestRestart(cs)
  {
    var all := cs + [c];
    assert all[..|cs|] == cs;
    forall i | 0 <= i < |all| && all[i].Encode? ensures FollowsRestart(all[..i], all[i].frame.size) {
      assert all[..i] == cs[..i];
      if i < |cs| {
        assert cs[i].Encode?;
      }
    }
  }

  // -------------------------------------------------------------------------
  // The invariant
  // -------------------------------------------------------------------------

  /** The capture thread's remembered dimensions are those of the last Restart it sent. */
  ghost predicate CaptureSizes(s: State) {
    && Matched(s.hist.accepted)
    && (s.cap.enc.input.w > 0 ==> s.cap.enc.output.w > 0)
    && match s.cap.pc
       case Restarting(d) => d == s.cap.enc
       case Filling(size) => LatestRestart(s.hist.accepted) == Some(s.cap.enc) && s.cap.enc.input == size
       case Offering(size, _) => LatestRestart(s.hist.accepted) == Some(s.cap.enc) && s.cap.enc.input == size
       case _ => s.cap.enc.input.w > 0 || (s.cap.enc.output.w == 0 && s.cap.enc.input.h > 0)
                 ==> LatestRestart(s.hist.accepted) == Some(s.cap.enc)
  }

  /** The encoder was opened for the last Restart dequeued. */
  ghost predicate EncoderSizes(s: State) {
    && ChannelInv(s)
    && (match s.coder.pc
        case Opening(d) => LatestRestart(s.hist.accepted[..s.hist.taken]) == Some(d)
        case Encoding(f) => FollowsRestart(s.hist.accepted[..s.hist.taken], f.size)
        case _ => true)
    && (!s.coder.pc.Opening? && s.coder.encoder.Some? ==>
          && FollowsRestart(s.hist.accepted[..s.hist.taken], s.coder.encoder.value.input)
          && s.coder.encoder.value.output == EvenSize(LatestRestart(s.hist.accepted[..s.hist.taken]).value.output)
          && s.coder.encoder.value.output.w > 1 && s.coder.encoder.value.output.h > 1)
    && (forall j :: 0 <= j < |s.hist.codec| ==> s.hist.codec[j].input == s.hist.codec[j].frame.size)
  }

  /** A capture whose output tells it from the encoder's remembered size. */
  predicate Distinct(l: Label) {
    IsCapture(l) ==>
      && (l.step.size.w > 0 ==> l.step.output.w > 0)
      && (l.step.size.w == 0 ==> l.step.size.h > 0 && l.step.output == l.step.size)
  }

  lemma {:induction false} LocalSizesStep(s: State, step: LocalStep)
    requires CaptureSizes(s) && Enabled(s, Local(step)) && Distinct(Local(step))
    ensures CaptureSizes(Apply(s, Local(step)))
  {
  }

  lemma {:induction false} CaptureSizesStep(s: State, l: Label)
    requires CaptureSizes(s) && Enabled(s, l) && Distinct(l)
    ensures CaptureSizes(Apply(s, l))
  {
    match l
    case Local(step) => LocalSizesStep(s, step);
    case Send =>
      AppendMatched(s.hist.accepted, if s.cap.pc.Restarting? then Restart(s.cap.pc.dims) else Stop);
    case OfferFrame(_) => AppendMatched(s.hist.accepted, Encode(OfferedFrame(s)));
    case _ =>
  }

  lemma {:induction false} EncoderSizesStep(s: State, l: Label)
    requires EncoderSizes(s) && Matched(s.hist.accepted) && Enabled(s, l)
    ensures EncoderSizes(Apply(s, l))
  {
    ChannelStep(s, l);
    var t := Apply(s, l);
    if l.Receive? {
      var c := s.chan.commands[0];
      assert s.hist.accepted[..t.hist.taken] == s.hist.accepted[..s.hist.taken] + [c];
      assert s.hist.accepted[..t.hist.taken][..s.hist.taken] == s.hist.accepted[..s.hist.taken];
    } else if !EncodeSide(l) {
      CaptureSide(s, l);
      assert t.hist.accepted[..t.hist.taken] == s.hist.accepted[..s.hist.taken];
    }
  }

  /** Every capture of the run was safe under the limits of its moment. */
  predicate AllSafe(ls: seq<Label>) {
    ls == [] ||
    var n := |ls| - 1;
    && AllSafe(ls[..n])
    && Run(ls[..n]).Some?
    && (IsCapture(ls[n]) ==> SafeCapture(Run(ls[..n]).value.cap.maxSize, ls[n].step.size))
  }

  lemma {:induction false} OutputWidthOf(s: State, l: Label)
    requires Possible(s, l) && (IsCapture(l) ==> SafeCapture(s.cap.maxSize, l.step.size))
    ensures Distinct(l)
  {
    if IsCapture(l) {
      OutputWidth(s.cap.maxSize, l.step.size);
    }
  }

  lemma {:induction false} SizesHold(ls: seq<Label>)
    requires Run(ls).Some? && AllSafe(ls)
    ensures CaptureSizes(Run(ls).value) && EncoderSizes(Run(ls).value)
  {
    if ls != [] {
      var before := Run(ls[..|ls| - 1]).value;
      SizesHold(ls[..|ls| - 1]);
      OutputWidthOf(before, ls[|ls| - 1]);
      CaptureSizesStep(before, ls[|ls| - 1]);
      EncoderSizesStep(before, ls[|ls| - 1]);
    }
  }

  /**
    Over every interleaving: each frame that entered the channel follows a
    Restart of its own size, the frame being encoded has the size of the last
    Restart dequeued, and no codec was ever handed a frame of another size.
  */
  lemma {:induction false} FramesHaveTheRestartSize(ls: seq<Label>)
    requires Run(ls).Some? && AllSafe(ls)
    ensures var s := Run(ls).value;
      && Matched(s.hist.accepted)
      && s.hist.taken <= |s.hist.accepted|
      && (s.coder.pc.Encoding? ==> FollowsRestart(s.hist.accepted[..s.hist.taken], s.coder.pc.frame.size))
      && (s.coder.pc.Encoding? && s.coder.encoder.Some? ==> s.coder.encoder.value.input == s.coder.pc.frame.size)
      && (forall j :: 0 <= j < |s.hist.codec| ==> s.hist.codec[j].input == s.hist.codec[j].frame.size)
  {
    SizesHold(ls);
  }

  // -------------------------------------------------------------------------
  // The guard is exact
  // -------------------------------------------------------------------------

  lemma {:induction false} Extend(ls: seq<Label>, l: Label)
    requires Run(ls).Some? && Possible(Run(ls).value, l)
    ensures Run(ls + [l]) == Some(Apply(Run(ls).value, l))
    ensures AllSafe(ls) && (IsCapture(l) ==> SafeCapture(Run(ls).value.cap.maxSize, l.step.size)) ==>
              AllSafe(ls + [l])
  {
    assert (ls + [l])[..|ls|] == ls;
  }

  /** The next capture of a waiting thread, followed until its frame is offered. */
  function CaptureThenOffer(ls: seq<Label>, max: Size, size: Size): seq<Label> {
    ls + [Local(CaptureSucceeded(size, OutputSize(max, size)))] + [TakeBuffer] + [OfferFrame(None)]
  }

  /** A thread that would take a capture of this size for the one its encoder was opened for. */
  predicate Confused(s: State, max: Size, size: Size) {
    && s.cap.pc.Waiting? && s.cap.recording && s.cap.maxSize == max
    && s.cap.enc == Dims(size, OutputSize(max, size))
    && s.chan.commands == [] && !s.coder.pc.Exited?
    && !FollowsRestart(s.hist.accepted, size)
  }

  lemma {:induction false} ConfusedMismatches(ls: seq<Label>, max: Size, size: Size)
    requires Run(ls).Some? && Confused(Run(ls).value, max, size)
    ensures Run(CaptureThenOffer(ls, max, size)).Some?
    ensures !Matched(Run(CaptureThenOffer(ls, max, size)).value.hist.accepted)
  {
    var s := Run(ls).value;
    var a := Local(CaptureSucceeded(size, OutputSize(max, size)));
    Extend(ls, a);
    Extend(ls + [a], TakeBuffer);
    Extend(ls + [a] + [TakeBuffer], OfferFrame(None));
    var t := Run(CaptureThenOffer(ls, max, size)).value;
    var n := |s.hist.accepted|;
    assert t.hist.accepted[n].Encode? && t.hist.accepted[n].frame.size == size;
    assert t.hist.accepted[..n] == s.hist.accepted;
  }

  /** With any excluded size, a run of safe captures can leave the thread confused. */
  lemma {:induction false} UnsafeCaptureConfuses(max: Size, size: Size) returns (ls: seq<Label>)
    requires !SafeCapture(max, size)
    ensures Run(ls).Some? && AllSafe(ls) && Confused(Run(ls).value, max, size)
  {
    ls := [];
    if size.h > 0 {
      ls := PrimeEncoder(Size(3840, max.h), size.h);
      SameOutput(max, size.h);
    }
    Extend(ls, Local(StartCapture(true, max)));
    ls := ls + [Local(StartCapture(true, max))];
  }

  /** Opens the encoder for a capture of width 1 and height `h`, then goes back to waiting. */
  lemma {:induction false} PrimeEncoder(max: Size, h: nat) returns (ls: seq<Label>)
    requires h > 0
    ensures Run(ls).Some? && AllSafe(ls)
    ensures var s := Run(ls).value; var d := Dims(Size(1, h), OutputSize(max, Size(1, h)));
      s.cap.pc.Waiting? && s.cap.enc == d && s.hist.accepted == [Restart(d)] && s.chan.commands == [] && !s.coder.pc.Exited?
  {
    var l0 := Local(StartCapture(true, max));
    var l1 := Local(CaptureSucceeded(Size(1, h), OutputSize(max, Size(1, h))));
    Extend([], l0);
    Extend([] + [l0], l1);
    Extend([] + [l0] + [l1], Send);
    Extend([] + [l0] + [l1] + [Send], TakeBuffer);
    Extend([] + [l0] + [l1] + [Send] + [TakeBuffer], OfferFrame(None));
    Extend([] + [l0] + [l1] + [Send] + [TakeBuffer] + [OfferFrame(None)], Receive);
    ls := [] + [l0] + [l1] + [Send] + [TakeBuffer] + [OfferFrame(None)] + [Receive];
  }

  /** A run of safe captures up to a waiting thread with these limits, whose next capture is then offered. */
  ghost predicate SafeThenCapture(ls: seq<Label>, max: Size, size: Size) {
    && Run(ls).Some? && AllSafe(ls) && Run(ls).value.cap.maxSize == max
    && Run(CaptureThenOffer(ls, max, size)).Some?
  }

  lemma {:induction false} RunPrefix(ls: seq<Label>, l: Label)
    requires Run(ls + [l]).Some?
    ensures Run(ls).Some? && Possible(Run(ls).value, l)
    ensures AllSafe(ls) && (IsCapture(l) ==> SafeCapture(Run(ls).value.cap.maxSize, l.step.size)) ==>
              AllSafe(ls + [l])
  {
    assert (ls + [l])[..|ls|] == ls;
  }

  lemma {:induction false} SafeStaysMatched(ls: seq<Label>, max: Size, size: Size)
    requires SafeCapture(max, size) && SafeThenCapture(ls, max, size)
    ensures Matched(Run(CaptureThenOffer(ls, max, size)).value.hist.accepted)
  {
    var a := ls + [Local(CaptureSucceeded(size, OutputSize(max, size)))];
    var b := a + [TakeBuffer];
    var c := b + [OfferFrame(None)];
    RunPrefix(b, OfferFrame(None));
    RunPrefix(a, TakeBuffer);
    RunPrefix(ls, a[|ls|]);
    SizesHold(c);
  }

  /** A capture is safe if and only if it can never break the match, whatever safe run came before it. */
  lemma {:induction false} SafeCaptureIsExact(max: Size, size: Size)
    ensures SafeCapture(max, size) <==>
      forall ls :: SafeThenCapture(ls, max, size) ==>
        Matched(Run(CaptureThenOffer(ls, max, size)).value.hist.accepted)
  {
    if SafeCapture(max, size) {
      forall ls | SafeThenCapture(ls, max, size)
        ensures Matched(Run(CaptureThenOffer(ls, max, size)).value.hist.accepted)
      {
        SafeStaysMatched(ls, max, size);
      }
    } else {
      var ls := UnsafeCaptureConfuses(max, size);
      ConfusedMismatches(ls, max, size);
      assert SafeThenCapture(ls, max, size);
    }
  }
}
