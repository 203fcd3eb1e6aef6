/**
  Which frames become IDRs, over every run: the law from keyframe requests to codec calls,
  and what it means for an IDR that the codec rejects.
*/
module PipelineIdrs {
  import opened Prelude
  import opened Pipeline
  import opened PipelineRequests

  /** The number of the frame in an encoder's last call. */
  function LastNumber(calls: seq<CodecCall>, epoch: nat): Option<nat> {
    if calls == [] then None
    else if calls[|calls| - 1].epoch == epoch then Some(calls[|calls| - 1].frame.number)
    else LastNumber(calls[..|calls| - 1], epoch)
  }

  /** A frame between `a` and `b`, both left out, was queued with the keyframe flag. */
  predicate FlaggedBetween(fs: seq<Frame>, a: nat, b: nat) {
    exists n: nat | a < n < b && n < |fs| :: fs[n].keyframe
  }

  /**
    An encoder owes an IDR before frame `b`: it has had no call, or a flagged frame came since
    its last one.
  */
  predicate Owes(fs: seq<Frame>, b: nat, calls: seq<CodecCall>, epoch: nat) {
    var last := LastNumber(calls, epoch);
    last.None? || FlaggedBetween(fs, last.value, b)
  }

  predicate LawAt(fs: seq<Frame>, calls: seq<CodecCall>, c: nat)
    requires c < |calls|
  {
    calls[c].idr <==> Owes(fs, calls[c].frame.number + 1, calls[..c], calls[c].epoch)
  }

  ghost predicate Law(fs: seq<Frame>, calls: seq<CodecCall>) {
    forall c: nat | c < |calls| :: LawAt(fs, calls, c)
  }

  /** Every encoder that has had a call was made. */
  predicate EpochsMade(calls: seq<CodecCall>, encoder: Option<Encoder>, epochs: nat) {
    && (forall c: nat | c < |calls| :: calls[c].epoch < epochs)
    && (encoder.Some? ==> encoder.value.epoch < epochs)
  }

  ghost predicate IdrInv(s: State) {
    && CodecInv(s)
    && EpochsMade(s.hist.codec, s.coder.encoder, s.hist.epochs)
    && Law(Frames(s.hist.accepted), s.hist.codec)
    && (s.coder.encoder.Some? ==>
          var e := s.coder.encoder.value;
          e.forceKeyframe <==> Owes(Frames(s.hist.accepted), Processed(s), s.hist.codec, e.epoch))
  }

  // -------------------------------------------------------------------------
  // What a frame changes
  // -------------------------------------------------------------------------

  /** More frames behind `b` do not matter. */
  lemma {:induction false} OwesOfPrefix(fs: seq<Frame>, more: seq<Frame>, b: nat, calls: seq<CodecCall>, epoch: nat)
    requires fs <= more && b <= |fs|
    ensures Owes(fs, b, calls, epoch) <==> Owes(more, b, calls, epoch)
  {
  }

  lemma {:induction false} LawOfPrefix(fs: seq<Frame>, more: seq<Frame>, processed: nat, calls: seq<CodecCall>)
    requires fs <= more && CallsInv(fs, processed, calls) && Law(fs, calls)
    ensures Law(more, calls)
  {
    forall c: nat | c < |calls| ensures LawAt(more, calls, c) {
      assert CallOk(fs, processed, calls, c) && LawAt(fs, calls, c);
      OwesOfPrefix(fs, more, calls[c].frame.number + 1, calls[..c], calls[c].epoch);
    }
  }

  lemma {:induction false} LastIsCalled(fs: seq<Frame>, processed: nat, calls: seq<CodecCall>, epoch: nat)
    requires CallsInv(fs, processed, calls)
    ensures LastNumber(calls, epoch).Some? ==> LastNumber(calls, epoch).value < processed
  {
    LastIsCall(calls, epoch);
    var last := LastNumber(calls, epoch);
    if last.Some? {
      var i: nat :| i < |calls| && calls[i].frame.number == last.value;
      assert CallOk(fs, processed, calls, i);
    }
  }

  lemma {:induction false} LastIsCall(calls: seq<CodecCall>, epoch: nat)
    ensures LastNumber(calls, epoch).Some? ==>
              exists i: nat :: i < |calls| && calls[i].epoch == epoch && calls[i].frame.number == LastNumber(calls, epoch).value
    ensures LastNumber(calls, epoch).None? ==> forall i: nat | i < |calls| :: calls[i].epoch != epoch
  {
    if calls != [] {
      LastIsCall(calls[..|calls| - 1], epoch);
    }
  }

  /** One frame further: the encoder owes what it owed, or what this frame asks for. */
  lemma {:induction false} OwesNext(fs: seq<Frame>, done: nat, calls: seq<CodecCall>, epoch: nat)
    requires CallsInv(fs, done, calls) && done < |fs|
    ensures Owes(fs, done + 1, calls, epoch) <==> Owes(fs, done, calls, epoch) || fs[done].keyframe
  {
    LastIsCalled(fs, done, calls, epoch);
  }

  /** After its call for the frame, an encoder owes nothing. */
  lemma {:induction false} OwesNothing(fs: seq<Frame>, done: nat, calls: seq<CodecCall>, c: CodecCall)
    requires c.frame.number == done
    ensures !Owes(fs, done + 1, calls + [c], c.epoch)
  {
  }

  lemma {:induction false} LawNext(fs: seq<Frame>, calls: seq<CodecCall>, c: CodecCall)
    requires Law(fs, calls) && (c.idr <==> Owes(fs, c.frame.number + 1, calls, c.epoch))
    ensures Law(fs, calls + [c])
  {
    var all := calls + [c];
    forall k: nat | k < |all| ensures LawAt(fs, all, k) {
      assert all[..k] == calls[..k];
      if k < |calls| {
        assert LawAt(fs, calls, k);
      } else {
        assert calls[..k] == calls;
      }
    }
  }

  lemma {:induction false} FreshEncoderOwes(fs: seq<Frame>, b: nat, calls: seq<CodecCall>, epochs: nat)
    requires forall c: nat | c < |calls| :: calls[c].epoch < epochs
    ensures Owes(fs, b, calls, epochs)
  {
    LastIsCall(calls, epochs);
  }

  // -------------------------------------------------------------------------
  // Steps
  // -------------------------------------------------------------------------

  lemma {:induction false} EncodeKeepsIdrs(s: State, outcome: Outcome)
    requires IdrInv(s) && Enabled(s, EncodeFrame(outcome))
    ensures IdrInv(Apply(s, EncodeFrame(outcome)))
  {
    EncodeKeepsCodec(s, outcome);
    var fs, f, done := Frames(s.hist.accepted), s.coder.pc.frame, Processed(s);
    FrameInHand(s);
    EncodeKeepsProgress(s, outcome);
    if s.coder.encoder.Some? {
      var e := s.coder.encoder.value;
      OwesNext(fs, done, s.hist.codec, e.epoch);
      if !outcome.Skipped? {
        var c := CodecCall(f, e.epoch, e.input, e.forceKeyframe || f.keyframe, outcome.Sent?);
        LawNext(fs, s.hist.codec, c);
        OwesNothing(fs, done, s.hist.codec, c);
      }
    }
  }

  lemma {:induction false} OpenKeepsIdrs(s: State, ok: bool)
    requires IdrInv(s) && Enabled(s, OpenEncoder(ok))
    ensures IdrInv(Apply(s, OpenEncoder(ok)))
  {
    OpenKeepsCodec(s, ok);
    FreshEncoderOwes(Frames(s.hist.accepted), Processed(s), s.hist.codec, s.hist.epochs);
  }

  lemma {:induction false} ReceiveKeepsIdrs(s: State)
    requires IdrInv(s) && Enabled(s, Receive)
    ensures IdrInv(Apply(s, Receive))
  {
    ReceiveKeepsCodec(s);
    ReceiveKeepsProgress(s);
  }

  lemma {:induction false} ReturnKeepsIdrs(s: State)
    requires IdrInv(s) && Enabled(s, ReturnBuffer)
    ensures IdrInv(Apply(s, ReturnBuffer))
  {
    ReturnKeepsCodec(s);
  }

  lemma {:induction false} CaptureKeepsIdrs(s: State, l: Label)
    requires IdrInv(s) && Enabled(s, l) && !EncodeSide(l)
    ensures IdrInv(Apply(s, l))
  {
    var t := Apply(s, l);
    RequestStep(s, l);
    CaptureSide(s, l);
    CaptureKeepsProgress(s, l);
    MoreFrames(Frames(s.hist.accepted), Frames(t.hist.accepted), Processed(s), s.hist.codec, s.coder.encoder);
    CaptureMakesNoEncoder(s, l);
    LawOfPrefix(Frames(s.hist.accepted), Frames(t.hist.accepted), Processed(s), s.hist.codec);
    if s.coder.encoder.Some? {
      OwesOfPrefix(Frames(s.hist.accepted), Frames(t.hist.accepted), Processed(s), s.hist.codec, s.coder.encoder.value.epoch);
    }
  }

  lemma {:induction false} CaptureMakesNoEncoder(s: State, l: Label)
    requires Enabled(s, l) && !EncodeSide(l)
    ensures Apply(s, l).hist.epochs == s.hist.epochs
  {
  }

  lemma {:induction false} IdrStep(s: State, l: Label)
    requires IdrInv(s) && Enabled(s, l)
    ensures IdrInv(Apply(s, l))
  {
    if l.EncodeFrame? {
      EncodeKeepsIdrs(s, l.outcome);
    } else if l.OpenEncoder? {
      OpenKeepsIdrs(s, l.ok);
    } else if l.Receive? {
      ReceiveKeepsIdrs(s);
    } else if l.ReturnBuffer? {
      ReturnKeepsIdrs(s);
    } else {
      CaptureKeepsIdrs(s, l);
    }
  }

  lemma {:induction false} IdrsHold(ls: seq<Label>)
    requires Run(ls).Some?
    ensures IdrInv(Run(ls).value)
  {
    if ls != [] {
      IdrsHold(ls[..|ls| - 1]);
      IdrStep(Run(ls[..|ls| - 1]).value, ls[|ls| - 1]);
    }
  }

  // -------------------------------------------------------------------------
  // The law, from requests
  // -------------------------------------------------------------------------

  /** A frame between `a` and `b`, `b` included, answers a request. */
  ghost predicate AnsweredBetween(log: seq<Event>, a: nat, b: nat) {
    exists r: nat, j: nat :: Answered(log, r, j) && a < log[j].frame.number <= b
  }

  lemma {:induction false} PositionOfQueued(log: seq<Event>, n: nat) returns (j: nat)
    requires n < |QueuedFrames(log)|
    ensures j < |log| && log[j].Queued? && log[j].frame == QueuedFrames(log)[n]
  {
    var k := |log| - 1;
    if log[k].Queued? && n == |QueuedFrames(log[..k])| {
      j := k;
    } else {
      j := PositionOfQueued(log[..k], n);
    }
  }

  /** A queued frame is flagged when it answers a request. */
  lemma {:induction false} FlaggedAnswers(s: State, j: nat)
    requires RequestInv(s) && j < |s.hist.log| && s.hist.log[j].Queued?
    ensures s.hist.log[j].frame.keyframe <==> exists r: nat :: Answered(s.hist.log, r, j)
  {
    var log := s.hist.log;
    AnsweredAt(log, j);
    KeyframeDueMeaning(log[..j]);
    if r: nat :| Answered(log, r, j) {
      assert log[..j][r].Requested? && NoneQueued(log[..j], r, j);
    }
    if i :| 0 <= i < j && log[..j][i].Requested? && NoneQueued(log[..j], i, j) {
      assert NoneQueued(log, i, j) by {
        forall k | i <= k < j ensures !log[k].Queued? {
          assert log[..j][k] == log[k];
        }
      }
      assert Answered(log, i, j);
    }
  }

  lemma {:induction false} FlaggedIsAnswered(s: State, a: nat, b: nat)
    requires RequestInv(s)
    ensures FlaggedBetween(Frames(s.hist.accepted), a, b + 1) <==> AnsweredBetween(s.hist.log, a, b)
  {
    var fs, log := Frames(s.hist.accepted), s.hist.log;
    if FlaggedBetween(fs, a, b + 1) {
      var n: nat :| a < n < b + 1 && n < |fs| && fs[n].keyframe;
      var j := PositionOfQueued(log, n);
      FlaggedAnswers(s, j);
      var r: nat :| Answered(log, r, j);
      assert log[j].frame.number == n;
    }
    if AnsweredBetween(log, a, b) {
      var r: nat, j: nat :| Answered(log, r, j) && a < log[j].frame.number <= b;
      FlaggedAnswers(s, j);
      QueuedHasPosition(log, j);
      var n := |QueuedFrames(log[..j])|;
      assert fs[n] == log[j].frame && fs[n].number == n;
    }
  }

  /**
    Over every run: a codec call is an IDR if and only if it is the first of its encoder, or a frame
    that answers a keyframe request was queued after the frame of its encoder's call before, and no
    later than its own.
  */
  lemma {:induction false} IdrsAnswerRequests(ls: seq<Label>, c: nat)
    requires Run(ls).Some? && c < |Run(ls).value.hist.codec|
    ensures var s := Run(ls).value; var call := s.hist.codec[c]; var last := LastNumber(s.hist.codec[..c], call.epoch);
      call.idr <==> last.None? || AnsweredBetween(s.hist.log, last.value, call.frame.number)
  {
    IdrsHold(ls);
    var s := Run(ls).value;
    var call := s.hist.codec[c];
    assert LawAt(Frames(s.hist.accepted), s.hist.codec, c);
    var last := LastNumber(s.hist.codec[..c], call.epoch);
    if last.Some? {
      FlaggedIsAnswered(s, last.value, call.frame.number);
    }
  }

  /** Call `c` is the next of the same encoder after call `i`. */
  predicate NextCall(calls: seq<CodecCall>, i: nat, c: nat) {
    && i < c < |calls| && calls[i].epoch == calls[c].epoch
    && forall k: nat | i < k < c :: calls[k].epoch != calls[c].epoch
  }

  lemma {:induction false} NextCallIsAfterLast(calls: seq<CodecCall>, i: nat, c: nat, n: nat)
    requires NextCall(calls, i, c) && i < n <= c
    ensures LastNumber(calls[..n], calls[c].epoch) == Some(calls[i].frame.number)
    decreases n
  {
    assert calls[..n][..n - 1] == calls[..n - 1];
    if n > i + 1 {
      NextCallIsAfterLast(calls, i, c, n - 1);
    }
  }

  /**
    An IDR that the codec rejects is made up for by the encoder's next call if and only if a request
    has been answered since by a frame up to that call's: nothing remembers the rejection.
  */
  lemma {:induction false} RejectedIdrIsMadeUpExactly(ls: seq<Label>, i: nat, c: nat)
    requires Run(ls).Some? && NextCall(Run(ls).value.hist.codec, i, c)
    requires var calls := Run(ls).value.hist.codec; calls[i].idr && !calls[i].accepted
    ensures var s := Run(ls).value; var calls := s.hist.codec;
      calls[c].idr <==> AnsweredBetween(s.hist.log, calls[i].frame.number, calls[c].frame.number)
  {
    NextCallIsAfterLast(Run(ls).value.hist.codec, i, c, c);
    IdrsAnswerRequests(ls, c);
  }
}
