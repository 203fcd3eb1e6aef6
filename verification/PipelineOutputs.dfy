/**
  Output sizes through the pipeline: whatever the limits of the client were and became,
  a frame is encoded in the size that fits the limits under which it was captured.
*/
module PipelineOutputs {
  import opened Prelude
  import opened Scaling
  import opened Pipeline
  import opened PipelineRequests
  import opened PipelineSizes

  /** The client's limits when entry `i` entered the command channel; those of now if it did not yet. */
  function LimitsAt(ls: seq<Label>, i: nat): Size
    requires Run(ls).Some?
  {
    if ls == [] then INIT.cap.maxSize
    else
      var before := ls[..|ls| - 1];
      if i < |Run(before).value.hist.accepted| then LimitsAt(before, i) else Run(before).value.cap.maxSize
  }

  /** From a capture until its frame is offered, the remembered output is the one for the limits. */
  predicate Fits(s: State) {
    s.cap.pc.Restarting? || s.cap.pc.Filling? || s.cap.pc.Offering? ==>
      s.cap.enc.output == OutputSize(s.cap.maxSize, s.cap.enc.input)
  }

  lemma {:induction false} FitsStep(s: State, l: Label)
    requires Possible(s, l) && Fits(s)
    ensures Fits(Apply(s, l))
  {
  }

  lemma {:induction false} FitsHolds(ls: seq<Label>)
    requires Run(ls).Some?
    ensures Fits(Run(ls).value)
  {
    if ls != [] {
      FitsHolds(ls[..|ls| - 1]);
      FitsStep(Run(ls[..|ls| - 1]).value, ls[|ls| - 1]);
    }
  }

  /** Entry `i`, if it is a frame, comes after a Restart for its size and the output these limits allow. */
  predicate SizedFor(cs: seq<Command>, i: nat, limits: Size)
    requires i < |cs|
  {
    cs[i].Encode? ==>
      LatestRestart(cs[..i]) == Some(Dims(cs[i].frame.size, OutputSize(limits, cs[i].frame.size)))
  }

  /** At most one entry is added by a step; a frame only once its size is what was last restarted for. */
  lemma {:induction false} AddedEntry(s: State, l: Label)
    requires Possible(s, l) && CaptureSizes(s) && Fits(s)
    ensures var a, b := s.hist.accepted, Apply(s, l).hist.accepted;
      b == a || (|b| == |a| + 1 && a <= b && SizedFor(b, |a|, s.cap.maxSize))
  {
    var a, b := s.hist.accepted, Apply(s, l).hist.accepted;
    if b != a {
      assert b[..|a|] == a;
    }
  }

  lemma {:induction false} EntryIsSized(ls: seq<Label>, i: nat)
    requires Run(ls).Some? && AllSafe(ls) && i < |Run(ls).value.hist.accepted|
    ensures SizedFor(Run(ls).value.hist.accepted, i, LimitsAt(ls, i))
  {
    var before := ls[..|ls| - 1];
    var s, l := Run(before).value, ls[|ls| - 1];
    SizesHold(before);
    FitsHolds(before);
    AddedEntry(s, l);
    var a, b := s.hist.accepted, Apply(s, l).hist.accepted;
    if i < |a| {
      EntryIsSized(before, i);
      assert b[..i] == a[..i];
    }
  }

  /** The frame being encoded is the last entry taken. */
  predicate InHand(s: State) {
    s.coder.pc.Encoding? ==>
      0 < s.hist.taken <= |s.hist.accepted| && s.hist.accepted[s.hist.taken - 1] == Encode(s.coder.pc.frame)
  }

  lemma {:induction false} InHandHolds(ls: seq<Label>)
    requires Run(ls).Some?
    ensures InHand(Run(ls).value)
  {
    if ls != [] {
      var before := ls[..|ls| - 1];
      InHandHolds(before);
      ChannelHolds(before);
      InHandStep(Run(before).value, ls[|ls| - 1]);
    }
  }

  lemma {:induction false} InHandStep(s: State, l: Label)
    requires Possible(s, l) && InHand(s) && ChannelInv(s)
    ensures InHand(Apply(s, l))
  {
    ChannelStep(s, l);
    if !EncodeSide(l) {
      CaptureSide(s, l);
    }
  }

  /**
    Over every run with safe captures, whatever the interleaving and however often the limits change:
    the encoder that gets a frame was opened for the frame's size and, made even, for the output size
    under the limits at the time the frame was queued.
  */
  lemma {:induction false} EncoderHasTheOutputSize(ls: seq<Label>)
    requires Run(ls).Some? && AllSafe(ls)
    ensures var s := Run(ls).value;
      s.coder.pc.Encoding? && s.coder.encoder.Some? ==>
        && s.hist.taken > 0
        && var e, size := s.coder.encoder.value, s.coder.pc.frame.size;
           && e.input == size
           && e.output == EvenSize(OutputSize(LimitsAt(ls, s.hist.taken - 1), size))
  {
    var s := Run(ls).value;
    SizesHold(ls);
    InHandHolds(ls);
    if s.coder.pc.Encoding? && s.coder.encoder.Some? {
      var cs, n := s.hist.accepted, s.hist.taken;
      EntryIsSized(ls, n - 1);
      assert cs[..n][..n - 1] == cs[..n - 1] && cs[..n][n - 1] == cs[n - 1];
      assert LatestRestart(cs[..n]) == LatestRestart(cs[..n - 1]);
    }
  }
}
