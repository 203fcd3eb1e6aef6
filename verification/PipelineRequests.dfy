/**
  Keyframe and quality requests through the pipeline: what was asked for since
  the last queued frame rides on the next one, and after a keyframe request no
  delta frame reaches a codec before that codec was handed an IDR.
*/
module PipelineRequests {
  import opened Prelude
  import opened Pipeline

  // -------------------------------------------------------------------------
  // What the log says is due, independently of the thread's own variables
  // -------------------------------------------------------------------------

  /** A keyframe was requested after the last queued frame. */
  function KeyframeDue(log: seq<Event>): bool {
    log != [] && !log[|log| - 1].Queued? &&
    (log[|log| - 1].Requested? || KeyframeDue(log[..|log| - 1]))
  }

  /** The last QP decided after the last queued frame. */
  function QpDue(log: seq<Event>): Option<nat> {
    if log == [] || log[|log| - 1].Queued? then None
    else if log[|log| - 1].Decided? then Some(log[|log| - 1].qp)
    else QpDue(log[..|log| - 1])
  }

  function QueuedFrames(log: seq<Event>): seq<Frame> {
    if log == [] then []
    else QueuedFrames(log[..|log| - 1]) +
         if log[|log| - 1].Queued? then [log[|log| - 1].frame] else []
  }

  /** The frames among the commands, in order. */
  function Frames(cs: seq<Command>): seq<Frame> {
    if cs == [] then []
    else Frames(cs[..|cs| - 1]) + if cs[|cs| - 1].Encode? then [cs[|cs| - 1].frame] else []
  }

  predicate Answers(log: seq<Event>, i: nat)
    requires i < |log|
  {
    log[i].Queued? ==>
      log[i].frame.keyframe == KeyframeDue(log[..i]) && log[i].frame.qp == QpDue(log[..i])
  }

  /** Every queued frame answers what was due. */
  predicate AllAnswered(log: seq<Event>) {
    log == [] || (AllAnswered(log[..|log| - 1]) && Answers(log, |log| - 1))
  }

  /** Frames carry their positions. */
  predicate Numbered(fs: seq<Frame>) {
    forall n: nat | n < |fs| :: fs[n].number == n
  }

  lemma {:induction false} AnsweredAt(log: seq<Event>, i: nat)
    requires AllAnswered(log) && i < |log|
    ensures Answers(log, i)
  {
    var n := |log| - 1;
    if i < n {
      AnsweredAt(log[..n], i);
      assert log[..n][..i] == log[..i];
    }
  }

  ghost predicate RequestInv(s: State) {
    && s.cap.pendingKeyframe == KeyframeDue(s.hist.log)
    && (s.cap.pc.Finished? || s.cap.pendingQp == QpDue(s.hist.log))
    && AllAnswered(s.hist.log)
    && QueuedFrames(s.hist.log) == Frames(s.hist.accepted)
    && |Frames(s.hist.accepted)| == s.hist.queued
    && Numbered(Frames(s.hist.accepted))
  }

  lemma {:induction false} AppendEvent(log: seq<Event>, e: Event)
    requires AllAnswered(log)
    requires e.Queued? ==> e.frame.keyframe == KeyframeDue(log) && e.frame.qp == QpDue(log)
    ensures AllAnswered(log + [e])
    ensures KeyframeDue(log + [e]) == (!e.Queued? && (e.Requested? || KeyframeDue(log)))
    ensures QpDue(log + [e]) == if e.Queued? then None else if e.Decided? then Some(e.qp) else QpDue(log)
    ensures QueuedFrames(log + [e]) == QueuedFrames(log) + if e.Queued? then [e.frame] else []
  {
    assert (log + [e])[..|log|] == log;
  }

  lemma {:induction false} AppendCommand(cs: seq<Command>, c: Command)
    ensures Frames(cs + [c]) == Frames(cs) + if c.Encode? then [c.frame] else []
  {
    assert (cs + [c])[..|cs|] == cs;
  }

  lemma {:induction false} AppendEvents(log: seq<Event>, decision: Option<nat>)
    requires AllAnswered(log)
    ensures var all := log + DecisionEvents(decision);
      && AllAnswered(all)
      && KeyframeDue(all) == KeyframeDue(log)
      && QpDue(all) == (if decision.Some? then decision else QpDue(log))
      && QueuedFrames(all) == QueuedFrames(log)
  {
    if decision.Some? {
      AppendEvent(log, Decided(decision.value));
    } else {
      assert log + [] == log;
    }
  }

  /** A frame built from what is due is queued: nothing is due, then the decision may be. */
  lemma {:induction false} QueueKeepsRequests(s: State, decision: Option<nat>)
    requires RequestInv(s) && Enabled(s, OfferFrame(decision))
    requires !s.coder.pc.Exited? && |s.chan.commands| < COMMAND_CAPACITY
    ensures RequestInv(Offered(s, decision))
  {
    var f := OfferedFrame(s);
    AppendEvent(s.hist.log, Queued(f));
    AppendCommand(s.hist.accepted, Encode(f));
    AppendEvents(s.hist.log + [Queued(f)], decision);
  }

  lemma {:induction false} OfferKeepsRequests(s: State, decision: Option<nat>)
    requires RequestInv(s) && Enabled(s, OfferFrame(decision))
    ensures RequestInv(Offered(s, decision))
  {
    if s.coder.pc.Exited? {
    } else if |s.chan.commands| < COMMAND_CAPACITY {
      QueueKeepsRequests(s, decision);
    } else {
      AppendEvents(s.hist.log, decision);
    }
  }

  lemma {:induction false} SendKeepsRequests(s: State)
    requires RequestInv(s) && Enabled(s, Send)
    ensures RequestInv(Delivered(s))
  {
    AppendCommand(s.hist.accepted, Restart(if s.cap.pc.Restarting? then s.cap.pc.dims else s.cap.enc));
    AppendCommand(s.hist.accepted, Stop);
  }

  lemma {:induction false} SameRequests(s: State, t: State)
    requires RequestInv(s) && t.cap == s.cap && t.hist.log == s.hist.log
    requires t.hist.accepted == s.hist.accepted && t.hist.queued == s.hist.queued
    ensures RequestInv(t)
  {
  }

  /** The other steps leave log, queue history and pending requests alone. */
  lemma {:induction false} OthersKeepRequests(s: State, l: Label)
    requires RequestInv(s) && Enabled(s, l) && !l.OfferFrame? && !l.RequestKeyframe? && !l.Send?
    ensures RequestInv(Apply(s, l))
  {
    var t := Apply(s, l);
    assert t.hist.log == s.hist.log && t.hist.accepted == s.hist.accepted && t.hist.queued == s.hist.queued;
  }

  lemma {:induction false} RequestStep(s: State, l: Label)
    requires RequestInv(s) && Enabled(s, l)
    ensures RequestInv(Apply(s, l))
  {
    match l
    case OfferFrame(decision) => OfferKeepsRequests(s, decision);
    case RequestKeyframe => AppendEvent(s.hist.log, Requested);
    case Send => SendKeepsRequests(s);
    case _ => OthersKeepRequests(s, l);
  }

  lemma {:induction false} RequestsHold(ls: seq<Label>)
    requires Run(ls).Some?
    ensures RequestInv(Run(ls).value)
  {
    if ls != [] {
      RequestsHold(ls[..|ls| - 1]);
      RequestStep(Run(ls[..|ls| - 1]).value, ls[|ls| - 1]);
    }
  }

  // -------------------------------------------------------------------------
  // Requests answered, stated on positions of the log
  // -------------------------------------------------------------------------

  /** No frame was queued at positions [i, j). */
  predicate NoneQueued(log: seq<Event>, i: nat, j: nat)
    requires i <= j <= |log|
  {
    forall k :: i <= k < j ==> !log[k].Queued?
  }

  lemma {:induction false} KeyframeDueMeaning(log: seq<Event>)
    ensures KeyframeDue(log) <==>
            exists i :: 0 <= i < |log| && log[i].Requested? && NoneQueued(log, i, |log|)
  {
    if log != [] {
      var n := |log| - 1;
      KeyframeDueMeaning(log[..n]);
      if KeyframeDue(log) {
        if log[n].Requested? {
          assert NoneQueued(log, n, |log|);
        } else {
          var i :| 0 <= i < n && log[..n][i].Requested? && NoneQueued(log[..n], i, n);
          assert NoneQueued(log, i, |log|) by {
            forall k | i <= k < |log| ensures !log[k].Queued? {
              if k < n { assert log[..n][k] == log[k]; }
            }
          }
        }
      }
      if i :| 0 <= i < |log| && log[i].Requested? && NoneQueued(log, i, |log|) {
        assert !log[n].Queued?;
        if i < n {
          assert log[..n][i].Requested? && NoneQueued(log[..n], i, n);
        }
      }
    }
  }

  /** `q` is the last QP decided in the log, with no frame queued after it. */
  predicate LastDecision(log: seq<Event>, i: int) {
    0 <= i < |log| && log[i].Decided? && NoneQueued(log, i, |log|) &&
    forall k :: i < k < |log| ==> !log[k].Decided?
  }

  lemma {:induction false} QpDueMeaning(log: seq<Event>)
    ensures forall i :: LastDecision(log, i) ==> QpDue(log) == Some(log[i].qp)
    ensures QpDue(log).Some? ==> exists i :: LastDecision(log, i)
  {
    if log != [] {
      var n := |log| - 1;
      var before := log[..n];
      QpDueMeaning(before);
      forall i | LastDecision(log, i) ensures QpDue(log) == Some(log[i].qp) {
        assert !log[n].Queued?;
        if i < n { assert LastDecision(before, i); }
      }
      if QpDue(log).Some? {
        if log[n].Decided? {
          assert LastDecision(log, n);
        } else {
          var i :| LastDecision(before, i);
          forall k | i <= k < |log| ensures !log[k].Queued? && (i < k ==> !log[k].Decided?) {
            if k < n { assert before[k] == log[k]; }
          }
          assert LastDecision(log, i);
        }
      }
    }
  }

  /**
    A queued frame carries a keyframe flag exactly when a keyframe was requested
    since the frame queued before it, however many offers failed in between.
  */
  lemma {:induction false} RequestRidesOnNextFrame(ls: seq<Label>, j: nat)
    requires Run(ls).Some?
    requires j < |Run(ls).value.hist.log| && Run(ls).value.hist.log[j].Queued?
    ensures var log := Run(ls).value.hist.log;
      log[j].frame.keyframe <==>
        exists i :: 0 <= i < j && log[i].Requested? && NoneQueued(log, i, j)
  {
    RequestsHold(ls);
    var log := Run(ls).value.hist.log;
    AnsweredAt(log, j);
    KeyframeDueMeaning(log[..j]);
    forall i | 0 <= i < j ensures NoneQueued(log[..j], i, j) <==> NoneQueued(log, i, j) {
      assert forall k :: i <= k < j ==> log[..j][k] == log[k];
    }
  }

  /**
    The QP on a queued frame is the last one decided since the frame queued
    before it; a busy encoder neither loses nor reorders decisions.
  */
  lemma {:induction false} DecisionRidesOnNextFrame(ls: seq<Label>, j: nat)
    requires Run(ls).Some?
    requires j < |Run(ls).value.hist.log| && Run(ls).value.hist.log[j].Queued?
    ensures var log := Run(ls).value.hist.log;
      && (forall i :: LastDecision(log[..j], i) ==> log[j].frame.qp == Some(log[i].qp))
      && (log[j].frame.qp.Some? ==> exists i :: LastDecision(log[..j], i))
  {
    RequestsHold(ls);
    AnsweredAt(Run(ls).value.hist.log, j);
    QpDueMeaning(Run(ls).value.hist.log[..j]);
  }

  // -------------------------------------------------------------------------
  // First in, first out
  // -------------------------------------------------------------------------

  ghost predicate ChannelInv(s: State) {
    && |s.chan.commands| <= COMMAND_CAPACITY
    && |s.chan.returned| <= RETURN_CAPACITY
    && s.hist.taken <= |s.hist.accepted|
    && s.chan.commands == s.hist.accepted[s.hist.taken..]
  }

  lemma {:induction false} ChannelStep(s: State, l: Label)
    requires ChannelInv(s) && Enabled(s, l)
    ensures ChannelInv(Apply(s, l))
    ensures s.hist.accepted <= Apply(s, l).hist.accepted
    ensures s.coder.pc.Receiving? && l.Receive? ==>
              s.hist.taken < |s.hist.accepted| && s.chan.commands[0] == s.hist.accepted[s.hist.taken]
  {
  }

  lemma {:induction false} ChannelHolds(ls: seq<Label>)
    requires Run(ls).Some?
    ensures ChannelInv(Run(ls).value)
  {
    if ls != [] {
      ChannelHolds(ls[..|ls| - 1]);
      ChannelStep(Run(ls[..|ls| - 1]).value, ls[|ls| - 1]);
    }
  }

  // -------------------------------------------------------------------------
  // From the request to the codec
  // -------------------------------------------------------------------------

  lemma {:induction false} FramesOfPrefix(cs: seq<Command>, n: nat)
    requires n <= |cs|
    ensures Frames(cs[..n]) <= Frames(cs)
  {
    if n < |cs| {
      FramesOfPrefix(cs[..|cs| - 1], n);
      assert cs[..|cs| - 1][..n] == cs[..n];
    } else {
      assert cs[..n] == cs;
    }
  }

  /** The encoder `epoch` was handed an IDR for frame `n` or a later one. */
  ghost predicate Covered(calls: seq<CodecCall>, epoch: nat, n: nat) {
    exists i :: 0 <= i < |calls| && calls[i].idr && calls[i].epoch == epoch && n <= calls[i].frame.number
  }

  /** An encoder that owes no IDR was handed one at all, and one since every flagged frame below `bound`. */
  ghost predicate Settled(fs: seq<Frame>, bound: nat, calls: seq<CodecCall>, epoch: nat)
    requires bound <= |fs|
  {
    && Covered(calls, epoch, 0)
    && forall n :: 0 <= n < bound && fs[n].keyframe ==> Covered(calls, epoch, n)
  }

  /** Call `j` is for an already processed frame; it is an IDR or its encoder was settled. */
  ghost predicate CallOk(fs: seq<Frame>, processed: nat, calls: seq<CodecCall>, j: nat)
    requires processed <= |fs| && j < |calls|
  {
    && calls[j].frame.number < processed
    && calls[j].frame == fs[calls[j].frame.number]
    && (forall i :: 0 <= i < j ==> calls[i].frame.number < calls[j].frame.number)
    && (calls[j].idr || Settled(fs, calls[j].frame.number + 1, calls[..j], calls[j].epoch))
  }

  ghost predicate CallsInv(fs: seq<Frame>, processed: nat, calls: seq<CodecCall>) {
    && processed <= |fs|
    && (forall j :: 0 <= j < |calls| ==> CallOk(fs, processed, calls, j))
  }

  ghost predicate EncoderInv(fs: seq<Frame>, processed: nat, calls: seq<CodecCall>, encoder: Option<Encoder>) {
    processed <= |fs| &&
    (encoder.Some? && !encoder.value.forceKeyframe ==> Settled(fs, processed, calls, encoder.value.epoch))
  }

  lemma {:induction false} MoreFrames(fs: seq<Frame>, more: seq<Frame>, processed: nat, calls: seq<CodecCall>, encoder: Option<Encoder>)
    requires fs <= more
    requires CallsInv(fs, processed, calls) && EncoderInv(fs, processed, calls, encoder)
    ensures CallsInv(more, processed, calls) && EncoderInv(more, processed, calls, encoder)
  {
    forall j | 0 <= j < |calls| ensures CallOk(more, processed, calls, j) {
      assert CallOk(fs, processed, calls, j);
    }
  }

  lemma {:induction false} MoreCalls(calls: seq<CodecCall>, c: CodecCall, epoch: nat, n: nat)
    requires Covered(calls, epoch, n) || (c.idr && c.epoch == epoch && n <= c.frame.number)
    ensures Covered(calls + [c], epoch, n)
  {
    if Covered(calls, epoch, n) {
      var i :| 0 <= i < |calls| && calls[i].idr && calls[i].epoch == epoch && n <= calls[i].frame.number;
      assert (calls + [c])[i] == calls[i];
    } else {
      assert (calls + [c])[|calls|] == c;
    }
  }

  /** Handing the next frame to an encoder that owes an IDR or is settled keeps everything in order. */
  lemma {:induction false} HandOver(fs: seq<Frame>, processed: nat, calls: seq<CodecCall>, c: CodecCall)
    requires CallsInv(fs, processed, calls) && processed < |fs|
    requires c.frame == fs[processed] && c.frame.number == processed
    requires c.idr || (Settled(fs, processed, calls, c.epoch) && !c.frame.keyframe)
    ensures CallsInv(fs, processed + 1, calls + [c])
    ensures Settled(fs, processed + 1, calls + [c], c.epoch)
  {
    var all, next := calls + [c], processed + 1;
    assert all[..|calls|] == calls;
    forall j | 0 <= j < |all| ensures CallOk(fs, next, all, j) {
      if j < |calls| {
        assert CallOk(fs, processed, calls, j);
        assert all[..j] == calls[..j];
      } else {
        forall i | 0 <= i < j ensures all[i].frame.number < c.frame.number {
          assert CallOk(fs, processed, calls, i);
        }
      }
    }
    MoreCalls(calls, c, c.epoch, 0);
    forall n | 0 <= n < processed + 1 && fs[n].keyframe ensures Covered(all, c.epoch, n) {
      MoreCalls(calls, c, c.epoch, n);
    }
  }

  lemma {:induction false} Advance(fs: seq<Frame>, processed: nat, calls: seq<CodecCall>)
    requires CallsInv(fs, processed, calls) && processed < |fs|
    ensures CallsInv(fs, processed + 1, calls)
  {
    var next := processed + 1;
    forall j | 0 <= j < |calls| ensures CallOk(fs, next, calls, j) {
      assert CallOk(fs, processed, calls, j);
    }
  }

  /** The frames the encode thread has dequeued. */
  function Dequeued(s: State): seq<Frame>
    requires s.hist.taken <= |s.hist.accepted|
  {
    Frames(s.hist.accepted[..s.hist.taken])
  }

  ghost predicate ProgressInv(s: State) {
    && ChannelInv(s)
    && Dequeued(s) <= Frames(s.hist.accepted)
    && (s.coder.pc.Encoding? ==> Dequeued(s) != [] && Dequeued(s)[|Dequeued(s)| - 1] == s.coder.pc.frame)
  }

  /** How many frames the encode thread is done with. */
  function Processed(s: State): nat
    requires ProgressInv(s)
  {
    |Dequeued(s)| - if s.coder.pc.Encoding? then 1 else 0
  }

  ghost predicate CodecInv(s: State) {
    && RequestInv(s)
    && ProgressInv(s)
    && CallsInv(Frames(s.hist.accepted), Processed(s), s.hist.codec)
    && EncoderInv(Frames(s.hist.accepted), Processed(s), s.hist.codec, s.coder.encoder)
  }

  predicate EncodeSide(l: Label) {
    l.Receive? || l.OpenEncoder? || l.EncodeFrame? || l.ReturnBuffer?
  }

  /** Steps of the capture thread only append commands and never touch the encode side. */
  lemma {:induction false} CaptureSide(s: State, l: Label)
    requires Enabled(s, l) && !EncodeSide(l)
    ensures var t := Apply(s, l);
      && s.hist.accepted <= t.hist.accepted && t.hist.taken == s.hist.taken
      && t.coder == s.coder && t.hist.codec == s.hist.codec
  {
  }

  lemma {:induction false} LongerHistory(a: seq<Command>, b: seq<Command>, n: nat)
    requires a <= b && n <= |a|
    ensures b[..n] == a[..n] && Frames(a) <= Frames(b)
  {
    FramesOfPrefix(b, |a|);
    assert b[..|a|] == a;
  }

  lemma {:induction false} CaptureKeepsProgress(s: State, l: Label)
    requires ProgressInv(s) && Enabled(s, l) && !EncodeSide(l)
    ensures ProgressInv(Apply(s, l)) && Processed(Apply(s, l)) == Processed(s)
    ensures Frames(s.hist.accepted) <= Frames(Apply(s, l).hist.accepted)
  {
    var t := Apply(s, l);
    ChannelStep(s, l);
    CaptureSide(s, l);
    LongerHistory(s.hist.accepted, t.hist.accepted, s.hist.taken);
    assert Dequeued(t) == Dequeued(s);
  }

  lemma {:induction false} ReceiveKeepsProgress(s: State)
    requires ProgressInv(s) && Enabled(s, Receive)
    ensures ProgressInv(Received(s)) && Processed(Received(s)) == Processed(s)
  {
    var t := Received(s);
    ChannelStep(s, Receive);
    assert t.hist.accepted[..t.hist.taken] == s.hist.accepted[..s.hist.taken] + [s.chan.commands[0]];
    AppendCommand(s.hist.accepted[..s.hist.taken], s.chan.commands[0]);
    FramesOfPrefix(t.hist.accepted, t.hist.taken);
  }

  lemma {:induction false} ReceiveKeepsCodec(s: State)
    requires CodecInv(s) && Enabled(s, Receive)
    ensures CodecInv(Apply(s, Receive))
  {
    SameRequests(s, Received(s));
    ReceiveKeepsProgress(s);
  }

  lemma {:induction false} EncodeKeepsProgress(s: State, outcome: Outcome)
    requires ProgressInv(s) && Enabled(s, EncodeFrame(outcome))
    ensures ProgressInv(Encoded(s, outcome)) && Processed(Encoded(s, outcome)) == Processed(s) + 1
    ensures Encoded(s, outcome).hist.accepted == s.hist.accepted
  {
    var t := Encoded(s, outcome);
    assert t.hist.taken == s.hist.taken && t.chan == s.chan;
  }

  /** The frame in hand is the next to be processed. */
  lemma {:induction false} FrameInHand(s: State)
    requires RequestInv(s) && ProgressInv(s) && s.coder.pc.Encoding?
    ensures var fs, done := Frames(s.hist.accepted), Processed(s);
      done < |fs| && fs[done] == s.coder.pc.frame && s.coder.pc.frame.number == done
  {
  }

  /** The next frame is done with: handed over, skipped, or dropped for want of an encoder. */
  lemma {:induction false} NextFrameDone(fs: seq<Frame>, done: nat, calls: seq<CodecCall>, encoder: Option<Encoder>, accepted: bool)
    requires CallsInv(fs, done, calls) && EncoderInv(fs, done, calls, encoder)
    requires done < |fs| && fs[done].number == done
    ensures CallsInv(fs, done + 1, calls)
    ensures encoder.Some? ==>
      var e := encoder.value; var idr := e.forceKeyframe || fs[done].keyframe;
      var after := calls + [CodecCall(fs[done], e.epoch, e.input, idr, accepted)];
      && CallsInv(fs, done + 1, after)
      && EncoderInv(fs, done + 1, after, Some(e.(forceKeyframe := false)))
      && EncoderInv(fs, done + 1, calls, Some(e.(forceKeyframe := idr)))
  {
    Advance(fs, done, calls);
    if encoder.Some? {
      var e := encoder.value;
      HandOver(fs, done, calls, CodecCall(fs[done], e.epoch, e.input, e.forceKeyframe || fs[done].keyframe, accepted));
    }
  }

  lemma {:induction false} EncodeKeepsCodec(s: State, outcome: Outcome)
    requires CodecInv(s) && Enabled(s, EncodeFrame(outcome))
    ensures CodecInv(Apply(s, EncodeFrame(outcome)))
  {
    SameRequests(s, Encoded(s, outcome));
    EncodeKeepsProgress(s, outcome);
    FrameInHand(s);
    NextFrameDone(Frames(s.hist.accepted), Processed(s), s.hist.codec, s.coder.encoder, outcome.Sent?);
  }

  lemma {:induction false} OpenKeepsCodec(s: State, ok: bool)
    requires CodecInv(s) && Enabled(s, OpenEncoder(ok))
    ensures CodecInv(Opened(s, ok)) && Processed(Opened(s, ok)) == Processed(s)
  {
    SameRequests(s, Opened(s, ok));
    assert Dequeued(Opened(s, ok)) == Dequeued(s);
  }

  lemma {:induction false} ReturnKeepsCodec(s: State)
    requires CodecInv(s) && Enabled(s, ReturnBuffer)
    ensures CodecInv(Returned(s)) && Processed(Returned(s)) == Processed(s)
  {
    SameRequests(s, Returned(s));
    assert Dequeued(Returned(s)) == Dequeued(s);
  }

  lemma {:induction false} CodecHolds(ls: seq<Label>)
    requires Run(ls).Some?
    ensures CodecInv(Run(ls).value)
  {
    if ls != [] {
      CodecHolds(ls[..|ls| - 1]);
      var s, l := Run(ls[..|ls| - 1]).value, ls[|ls| - 1];
      if l.Receive? {
        ReceiveKeepsCodec(s);
      } else if l.EncodeFrame? {
        EncodeKeepsCodec(s, l.outcome);
      } else if l.OpenEncoder? {
        OpenKeepsCodec(s, l.ok);
      } else if l.ReturnBuffer? {
        ReturnKeepsCodec(s);
      } else {
        RequestStep(s, l);
        CaptureSide(s, l);
        CaptureKeepsProgress(s, l);
        MoreFrames(Frames(s.hist.accepted), Frames(Apply(s, l).hist.accepted), Processed(s), s.hist.codec, s.coder.encoder);
      }
    }
  }

  /** The codec calls for one encoder's IDRs at or after frame `n` and before call `j`. */
  ghost predicate IdrBetween(calls: seq<CodecCall>, j: nat, n: nat)
    requires j < |calls|
  {
    exists i :: 0 <= i < j && calls[i].idr && calls[i].epoch == calls[j].epoch &&
                n <= calls[i].frame.number < calls[j].frame.number
  }

  lemma {:induction false} CoveredBefore(s: State, j: nat, n: nat)
    requires CodecInv(s) && j < |s.hist.codec| && Covered(s.hist.codec[..j], s.hist.codec[j].epoch, n)
    ensures IdrBetween(s.hist.codec, j, n)
  {
    var i :| 0 <= i < j && s.hist.codec[..j][i].idr && s.hist.codec[..j][i].epoch == s.hist.codec[j].epoch &&
             n <= s.hist.codec[..j][i].frame.number;
    assert CallOk(Frames(s.hist.accepted), Processed(s), s.hist.codec, j);
  }

  lemma {:induction false} QueuedHasPosition(log: seq<Event>, j: nat)
    requires j < |log| && log[j].Queued?
    ensures |QueuedFrames(log[..j])| < |QueuedFrames(log)|
    ensures QueuedFrames(log)[|QueuedFrames(log[..j])|] == log[j].frame
  {
    var n := |log| - 1;
    if j < n {
      QueuedHasPosition(log[..n], j);
      assert log[..n][..j] == log[..j];
    }
  }

  /** Frame `j` of the log answers the request at `i`: it is the first one queued after it. */
  predicate Answered(log: seq<Event>, i: nat, j: nat) {
    i < j < |log| && log[i].Requested? && log[j].Queued? && NoneQueued(log, i, j)
  }

  /** Over every run: before any delta frame its encoder was handed an IDR. */
  lemma {:induction false} NoEncoderStartsOnADelta(ls: seq<Label>, c: nat)
    requires Run(ls).Some? && c < |Run(ls).value.hist.codec| && !Run(ls).value.hist.codec[c].idr
    ensures IdrBetween(Run(ls).value.hist.codec, c, 0)
  {
    CodecHolds(ls);
    var s := Run(ls).value;
    assert CallOk(Frames(s.hist.accepted), Processed(s), s.hist.codec, c);
    CoveredBefore(s, c, 0);
  }

  /**
    The keyframe guarantee, over every interleaving of the two threads.  Take a
    request, the first frame queued after it, and any delta frame a codec is
    handed from that frame on: the frame carries the keyframe flag, and the same
    encoder was handed an IDR for a frame in between.
  */
  lemma {:induction false} RequestedKeyframeComesFirst(ls: seq<Label>, i: nat, j: nat, c: nat)
    requires Run(ls).Some?
    requires Answered(Run(ls).value.hist.log, i, j) && c < |Run(ls).value.hist.codec|
    requires !Run(ls).value.hist.codec[c].idr
    ensures var s := Run(ls).value; var f := s.hist.log[j].frame;
      f.keyframe && (f.number <= s.hist.codec[c].frame.number ==> IdrBetween(s.hist.codec, c, f.number))
  {
    var s := Run(ls).value;
    RequestRidesOnNextFrame(ls, j);
    CodecHolds(ls);
    assert CallOk(Frames(s.hist.accepted), Processed(s), s.hist.codec, c);
    QueuedHasPosition(s.hist.log, j);
    var n := s.hist.log[j].frame.number;
    if n <= s.hist.codec[c].frame.number {
      assert Frames(s.hist.accepted)[n] == s.hist.log[j].frame;
      CoveredBefore(s, c, n);
    }
  }

  // -------------------------------------------------------------------------
  // What the codec makes of it
  // -------------------------------------------------------------------------

  /** Call `i` is an IDR of the encoder of call `j`, for a frame from `n` up to that of `j`. */
  predicate IdrFor(calls: seq<CodecCall>, i: nat, j: nat, n: nat)
    requires i < |calls| && j < |calls|
  {
    calls[i].idr && calls[i].epoch == calls[j].epoch && n <= calls[i].frame.number < calls[j].frame.number
  }

  /** As `IdrBetween`, and the codec has taken it. */
  ghost predicate AcceptedIdrBetween(calls: seq<CodecCall>, j: nat, n: nat)
    requires j < |calls|
  {
    exists i: nat :: i < j && IdrFor(calls, i, j, n) && calls[i].accepted
  }

  lemma {:induction false} IdrIsAccepted(calls: seq<CodecCall>, c: nat, n: nat)
    requires c < |calls| && IdrBetween(calls, c, n)
    requires forall k: nat | k < c && calls[k].idr :: calls[k].accepted
    ensures AcceptedIdrBetween(calls, c, n)
  {
    var i :| 0 <= i < c && calls[i].idr && calls[i].epoch == calls[c].epoch &&
             n <= calls[i].frame.number < calls[c].frame.number;
    assert IdrFor(calls, i, c, n);
  }

  /** With a codec that takes every IDR, deltas come only after an accepted one, from the start and after each request. */
  lemma {:induction false} AcceptedIdrComesFirst(ls: seq<Label>, c: nat)
    requires Run(ls).Some? && c < |Run(ls).value.hist.codec| && !Run(ls).value.hist.codec[c].idr
    requires forall k: nat | k < c && Run(ls).value.hist.codec[k].idr :: Run(ls).value.hist.codec[k].accepted
    ensures AcceptedIdrBetween(Run(ls).value.hist.codec, c, 0)
    ensures var s := Run(ls).value;
      forall i: nat, j: nat |
        Answered(s.hist.log, i, j) && s.hist.log[j].frame.number <= s.hist.codec[c].frame.number ::
        AcceptedIdrBetween(s.hist.codec, c, s.hist.log[j].frame.number)
  {
    NoEncoderStartsOnADelta(ls, c);
    var s := Run(ls).value;
    IdrIsAccepted(s.hist.codec, c, 0);
    forall i: nat, j: nat |
      Answered(s.hist.log, i, j) && s.hist.log[j].frame.number <= s.hist.codec[c].frame.number
      ensures AcceptedIdrBetween(s.hist.codec, c, s.hist.log[j].frame.number)
    {
      RequestedKeyframeComesFirst(ls, i, j, c);
      IdrIsAccepted(s.hist.codec, c, s.hist.log[j].frame.number);
    }
  }
}
