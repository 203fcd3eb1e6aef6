/**
  The two threads as they are written: variables updated step by step, one method for
  the work between two channel operations.  The object remembers the steps it has done,
  which make a run of the step system, so what is proved of runs holds of the object.
*/
module PipelineThreads {
  import opened Prelude
  import opened Scaling
  import opened Pipeline
  import opened PipelineRequests
  import opened PipelineSizes
  import opened PipelineBuffers

  class VideoThreads {
    // The capture thread.
    var capturePc: CapturePc
    var recording: bool
    var maxSize: Size
    var encIn: Size
    var encOut: Size
    var pendingKeyframe: bool
    var pendingQp: Option<nat>
    var spareBuffer: Option<nat>
    var consecutiveFailures: nat
    // The channels between the threads.
    var encodeChannel: seq<Command>
    var bufferReturn: seq<nat>
    // The encode thread.
    var encodePc: EncodePc
    var videoEncoder: Option<Encoder>
    // What has happened so far, which also numbers frames, buffers and encoders.
    var hist: History

    ghost var steps: seq<Label>

    ghost function View(): State
      reads this
    {
      State(Capture(capturePc, recording, maxSize, Dims(encIn, encOut),
                    pendingKeyframe, pendingQp, spareBuffer, consecutiveFailures),
            Channels(encodeChannel, bufferReturn), Coder(encodePc, videoEncoder), hist)
    }

    /** The object is where the steps done so far lead. */
    ghost predicate Valid()
      reads this
    {
      Run(steps) == Some(View())
    }

    constructor ()
      ensures Valid() && View() == INIT && steps == []
    {
      steps := [];
      capturePc, recording, maxSize := Waiting, false, Size(1920, 1080);
      encIn, encOut := Size(0, 0), Size(0, 0);
      pendingKeyframe, pendingQp, spareBuffer, consecutiveFailures := false, None, None, 0;
      encodeChannel, bufferReturn := [], [];
      encodePc, videoEncoder := Receiving, None;
      hist := INIT.hist;
    }

    ghost method Did(l: Label, before: State)
      requires Run(steps) == Some(before) && Possible(before, l) && View() == Apply(before, l)
      modifies this`steps
      ensures Valid() && steps == old(steps) + [l] && View() == old(View())
      ensures AllSafe(old(steps)) && (IsCapture(l) ==> SafeCapture(before.cap.maxSize, l.step.size)) ==> AllSafe(steps)
    {
      assert (steps + [l])[..|steps|] == steps;
      steps := steps + [l];
    }

    // -----------------------------------------------------------------------
    // What holds of the object at all times
    // -----------------------------------------------------------------------

    /** A frame being encoded has the size of the encoder, if all captures so far were safe. */
    lemma {:induction false} EncoderFits()
      requires Valid() && AllSafe(steps) && encodePc.Encoding? && videoEncoder.Some?
      ensures videoEncoder.value.input == encodePc.frame.size
    {
      FramesHaveTheRestartSize(steps);
    }

    /** Offering a frame finds the encode thread alive and the spare place empty; three buffers suffice. */
    lemma {:induction false} OfferFindsRoom()
      requires Valid()
      ensures capturePc.Offering? ==> spareBuffer.None? && !encodePc.Exited?
      ensures Live(PlacesOf(View())) <= 3
    {
      BuffersHaveOneOwner(steps);
    }

    /** No codec was handed a delta before an IDR of the same encoder. */
    lemma {:induction false} CodecsStartOnIdrs(c: nat)
      requires Valid() && c < |hist.codec| && !hist.codec[c].idr
      ensures IdrBetween(hist.codec, c, 0)
    {
      NoEncoderStartsOnADelta(steps, c);
    }

    // -----------------------------------------------------------------------
    // Commands of the video channel
    // -----------------------------------------------------------------------

    method StartCommand(started: bool, max: Size)
      requires capturePc.Waiting?
      requires Valid()
      modifies this
      ensures View() == Apply(old(View()), Local(StartCapture(started, max)))
      ensures Valid() && steps == old(steps) + [Local(StartCapture(started, max))]
    {
      ghost var before := View();
      recording := false;
      if started {
        recording := true;
        maxSize := max;
      }
      encIn := encIn.(w := 0);
      Did(Local(StartCapture(started, max)), before);
    }

    method RestartCommand()
      requires capturePc.Waiting?
      requires Valid()
      modifies this
      ensures View() == Apply(old(View()), Local(RestartVideo))
      ensures Valid() && steps == old(steps) + [Local(RestartVideo)]
    {
      ghost var before := View();
      encIn := encIn.(w := 0);
      Did(Local(RestartVideo), before);
    }

    method KeyframeCommand()
      requires capturePc.Waiting?
      requires Valid()
      modifies this
      ensures View() == Apply(old(View()), RequestKeyframe)
      ensures Valid() && steps == old(steps) + [RequestKeyframe]
    {
      ghost var before := View();
      pendingKeyframe := true;
      hist := Note(hist, [Requested]);
      Did(RequestKeyframe, before);
    }

    method Disconnected()
      requires capturePc.Waiting?
      requires Valid()
      modifies this
      ensures View() == Apply(old(View()), Local(Disconnect))
      ensures Valid() && steps == old(steps) + [Local(Disconnect)]
    {
      ghost var before := View();
      capturePc := Stopping;
      Did(Local(Disconnect), before);
    }

    // -----------------------------------------------------------------------
    // A capture tick
    // -----------------------------------------------------------------------

    method CaptureError()
      requires capturePc.Waiting? && recording
      requires Valid()
      modifies this
      ensures View() == Apply(old(View()), Local(CaptureFailed))
      ensures Valid() && steps == old(steps) + [Local(CaptureFailed)]
    {
      ghost var before := View();
      consecutiveFailures := consecutiveFailures + 1;
      if consecutiveFailures >= MAX_CAPTURE_FAILURES {
        recording := false;
      }
      Did(Local(CaptureFailed), before);
    }

    /** A picture of this size; the output size is computed here, so the step is possible. */
    method Captured(size: Size)
      requires capturePc.Waiting? && recording
      requires Valid()
      modifies this
      ensures var l := Local(CaptureSucceeded(size, OutputSize(old(maxSize), size)));
        old(Possible(View(), l)) && View() == Apply(old(View()), l)
      ensures Valid() && steps == old(steps) + [Local(CaptureSucceeded(size, OutputSize(old(maxSize), size)))]
      ensures AllSafe(old(steps)) && SafeCapture(old(maxSize), size) ==> AllSafe(steps)
    {
      ghost var before := View();
      consecutiveFailures := 0;
      var out := OutputSize(maxSize, size);
      var needsRestart := encIn.w != size.w || encIn.h != size.h || encOut.w != out.w || encOut.h != out.h;
      if needsRestart {
        encIn, encOut := size, out;
        capturePc := Restarting(Dims(size, out));
      } else {
        capturePc := Filling(size);
      }
      Did(Local(CaptureSucceeded(size, out)), before);
    }

    /** The blocking sends: a restart before the frame, and the stop at the end. */
    method BlockingSend()
      requires Enabled(View(), Send)
      requires Valid()
      modifies this
      ensures View() == Apply(old(View()), Send)
      ensures Valid() && steps == old(steps) + [Send]
    {
      ghost var before := View();
      var command := if capturePc.Restarting? then Restart(capturePc.dims) else Stop;
      encodeChannel := encodeChannel + [command];
      hist := Accept(hist, command);
      capturePc := if capturePc.Restarting? then Filling(capturePc.dims.input) else Joining;
      Did(Send, before);
    }

    method FillBuffer()
      requires capturePc.Filling?
      requires Valid()
      modifies this
      ensures View() == Apply(old(View()), TakeBuffer)
      ensures Valid() && steps == old(steps) + [TakeBuffer]
    {
      ghost var before := View();
      var buffer: nat;
      if spareBuffer.Some? {
        buffer := spareBuffer.value;
        spareBuffer := None;
      } else if bufferReturn != [] {
        buffer := bufferReturn[0];
        bufferReturn := bufferReturn[1..];
      } else {
        buffer := hist.buffers;
        hist := hist.(buffers := hist.buffers + 1);
      }
      capturePc := Offering(capturePc.size, buffer);
      Did(TakeBuffer, before);
    }

    /** `try_send`: whether the frame went in, came back, or found the encode thread gone. */
    method TrySend(frame: Frame) returns (r: Tried)
      modifies this`encodeChannel, this`hist
      ensures r == if encodePc.Exited? then Hangup else if |old(encodeChannel)| < COMMAND_CAPACITY then Accepted else Full(frame)
      ensures encodeChannel == old(encodeChannel) + if r.Accepted? then [Encode(frame)] else []
      ensures hist == if r.Accepted? then Accept(old(hist), Encode(frame)) else old(hist)
    {
      if encodePc.Exited? {
        return Hangup;
      }
      if |encodeChannel| >= COMMAND_CAPACITY {
        return Full(frame);
      }
      encodeChannel := encodeChannel + [Encode(frame)];
      hist := Accept(hist, Encode(frame));
      return Accepted;
    }

    /** Offering the frame takes the pending requests out; a frame that comes back brings them back. */
    method Offer(decision: Option<nat>)
      requires capturePc.Offering?
      requires Valid()
      modifies this
      ensures View() == Apply(old(View()), OfferFrame(decision))
      ensures Valid() && steps == old(steps) + [OfferFrame(decision)]
    {
      ghost var before := View();
      var frame := Frame(hist.queued, capturePc.size, capturePc.buffer, pendingKeyframe, pendingQp);
      pendingQp := None;
      var r := TrySend(frame);
      match r {
        case Accepted => Sent(frame, decision, before);
        case Full(back) => Rescue(back, decision, before);
        case Hangup => capturePc := Finished;
      }
      Did(OfferFrame(decision), before);
    }

    method Sent(frame: Frame, decision: Option<nat>, ghost before: State)
      requires before.cap.pc.Offering? && frame == OfferedFrame(before)
      requires !before.coder.pc.Exited? && |before.chan.commands| < COMMAND_CAPACITY
      requires View() == State(before.cap.(pendingQp := None),
                               before.chan.(commands := before.chan.commands + [Encode(frame)]),
                               before.coder, Accept(before.hist, Encode(frame)))
      modifies this`capturePc, this`pendingKeyframe, this`pendingQp, this`hist
      ensures View() == Offered(before, decision)
    {
      pendingKeyframe := false;
      hist := Note(hist, [Queued(frame)]);
      capturePc := Waiting;
      Adjust(decision);
    }

    /** The buffer of a frame that came back is kept for the next, and so are its requests. */
    method Rescue(back: Frame, decision: Option<nat>, ghost before: State)
      requires before.cap.pc.Offering? && back == OfferedFrame(before)
      requires !before.coder.pc.Exited? && |before.chan.commands| >= COMMAND_CAPACITY
      requires View() == before.(cap := before.cap.(pendingQp := None))
      modifies this`capturePc, this`spareBuffer, this`pendingKeyframe, this`pendingQp, this`hist
      ensures View() == Offered(before, decision)
    {
      spareBuffer := Some(back.buffer);
      pendingKeyframe := back.keyframe;
      if back.qp.Some? {
        pendingQp := back.qp;
      }
      capturePc := Waiting;
      Adjust(decision);
    }

    /** A quality decision waits for the next frame. */
    method Adjust(decision: Option<nat>)
      modifies this`pendingQp, this`hist
      ensures pendingQp == if decision.Some? then decision else old(pendingQp)
      ensures hist == Note(old(hist), DecisionEvents(decision))
    {
      if decision.Some? {
        pendingQp := Some(decision.value);
        hist := Note(hist, [Decided(decision.value)]);
      }
    }

    method JoinEncode()
      requires capturePc.Joining? && encodePc.Exited?
      requires Valid()
      modifies this
      ensures View() == Apply(old(View()), Join)
      ensures Valid() && steps == old(steps) + [Join]
    {
      ghost var before := View();
      capturePc := Finished;
      Did(Join, before);
    }

    // -----------------------------------------------------------------------
    // The encode thread
    // -----------------------------------------------------------------------

    method ReceiveCommand()
      requires encodePc.Receiving? && encodeChannel != []
      requires Valid()
      modifies this
      ensures View() == Apply(old(View()), Receive)
      ensures Valid() && steps == old(steps) + [Receive]
    {
      ghost var before := View();
      var command := encodeChannel[0];
      encodeChannel := encodeChannel[1..];
      hist := hist.(taken := hist.taken + 1);
      match command {
        case Encode(frame) => encodePc := Encoding(frame);
        case Restart(dims) => encodePc := Opening(dims);
        case Stop => encodePc := Exited;
      }
      Did(Receive, before);
    }

    /** `ok`: whether FFmpeg opens an encoder; outputs too small for it are refused before. */
    method RestartEncoder(ok: bool) returns (done: bool)
      requires encodePc.Opening?
      requires Valid()
      modifies this
      ensures done == (ok && CanOpen(old(encodePc.dims.output)))
      ensures View() == Apply(old(View()), OpenEncoder(done))
      ensures Valid() && steps == old(steps) + [OpenEncoder(done)]
    {
      ghost var before := View();
      var dims := encodePc.dims;
      var output := EvenSize(dims.output);
      encodePc := Receiving;
      if output.w <= 1 || output.h <= 1 || !ok {
        videoEncoder := None;
        Did(OpenEncoder(false), before);
        return false;
      }
      videoEncoder := Some(Encoder(hist.epochs, dims.input, output, true));
      hist := hist.(epochs := hist.epochs + 1);
      Did(OpenEncoder(true), before);
      return true;
    }

    method EncodeOne(outcome: Outcome)
      requires encodePc.Encoding?
      requires Valid()
      modifies this
      ensures View() == Apply(old(View()), EncodeFrame(outcome))
      ensures Valid() && steps == old(steps) + [EncodeFrame(outcome)]
    {
      ghost var before := View();
      var frame := encodePc.frame;
      encodePc := Returning(frame.buffer);
      if videoEncoder.None? {
        Did(EncodeFrame(outcome), before);
        return;
      }
      var enc := videoEncoder.value;
      if frame.keyframe {
        enc := enc.(forceKeyframe := true);
      }
      if !outcome.Skipped? {
        var idr := enc.forceKeyframe;
        if enc.forceKeyframe {
          enc := enc.(forceKeyframe := false);
        }
        hist := hist.(codec := hist.codec + [CodecCall(frame, enc.epoch, enc.input, idr, outcome.Sent?)]);
      }
      videoEncoder := Some(enc);
      Did(EncodeFrame(outcome), before);
    }

    method ReturnPixels()
      requires encodePc.Returning?
      requires Valid()
      modifies this
      ensures View() == Apply(old(View()), ReturnBuffer)
      ensures Valid() && steps == old(steps) + [ReturnBuffer]
    {
      ghost var before := View();
      if |bufferReturn| < RETURN_CAPACITY {
        bufferReturn := bufferReturn + [encodePc.buffer];
      }
      encodePc := Receiving;
      Did(ReturnBuffer, before);
    }
  }

  datatype Tried = Accepted | Full(frame: Frame) | Hangup
}
