/**
  Ownership of the recycled pixel buffers, shutdown of the two threads, and the
  runs that show where the pipeline's own comments promise more than it does.
*/
module PipelineBuffers {
  import opened Prelude
  import opened Scaling
  import opened Pipeline
  import opened PipelineRequests

  // -------------------------------------------------------------------------
  // Ownership
  // -------------------------------------------------------------------------

  function One(b: bool): nat { if b then 1 else 0 }

  /** The places that can hold a pixel buffer, and the buffer each of them holds. */
  datatype Places = Places(
    spare: Option<nat>, capture: Option<nat>, queued: Option<nat>,
    encode: Option<nat>, returned0: Option<nat>, returned1: Option<nat>)

  function PlacesOf(s: State): Places {
    Places(
      s.cap.spare,
      if s.cap.pc.Offering? then Some(s.cap.pc.buffer) else None,
      if s.chan.commands != [] && s.chan.commands[0].Encode? then Some(s.chan.commands[0].frame.buffer) else None,
      (match s.coder.pc case Encoding(f) => Some(f.buffer) case Returning(b) => Some(b) case _ => None),
      if |s.chan.returned| > 0 then Some(s.chan.returned[0]) else None,
      if |s.chan.returned| > 1 then Some(s.chan.returned[1]) else None)
  }

  /** How many places hold buffer `b`. */
  function Owners(p: Places, b: nat): nat {
    One(p.spare == Some(b)) + One(p.capture == Some(b)) + One(p.queued == Some(b)) +
    One(p.encode == Some(b)) + One(p.returned0 == Some(b)) + One(p.returned1 == Some(b))
  }

  /** How many places hold a buffer at all. */
  function Live(p: Places): nat {
    One(p.spare.Some?) + One(p.capture.Some?) + One(p.queued.Some?) +
    One(p.encode.Some?) + One(p.returned0.Some?) + One(p.returned1.Some?)
  }

  ghost predicate BufferInv(s: State) {
    && ChannelInv(s)
    && (forall b: nat :: Owners(PlacesOf(s), b) <= One(b < s.hist.buffers))
    && Live(PlacesOf(s)) <= 3
    && (s.cap.pc.Offering? ==> s.cap.spare.None?)
  }

  /** A fresh buffer appears only when the spare and the return channel are empty. */
  predicate MakesBuffer(s: State, l: Label) {
    l.TakeBuffer? && s.cap.spare.None? && s.chan.returned == []
  }

  /** A buffer is let go only by the encode thread, and only when the return channel is full. */
  predicate DropsBuffer(s: State, l: Label) {
    l.ReturnBuffer? && |s.chan.returned| == RETURN_CAPACITY
  }

  /** A step moves buffers between places; only a fresh or a dropped one changes the account. */
  ghost predicate Moves(s: State, l: Label, t: State)
    requires Enabled(s, l) && ChannelInv(s) && ChannelInv(t)
  {
    && (forall b: nat :: Owners(PlacesOf(t), b) + One(DropsBuffer(s, l) && b == s.coder.pc.buffer) ==
                         Owners(PlacesOf(s), b) + One(MakesBuffer(s, l) && b == s.hist.buffers))
    && Live(PlacesOf(t)) + One(DropsBuffer(s, l)) == Live(PlacesOf(s)) + One(MakesBuffer(s, l))
    && t.hist.buffers == s.hist.buffers + One(MakesBuffer(s, l))
    && (t.cap.pc.Offering? ==> t.cap.spare.None?)
  }

  lemma {:induction false} TakeMoves(s: State)
    requires s.cap.pc.Filling? && ChannelInv(s) && ChannelInv(Taken(s))
    ensures Moves(s, TakeBuffer, Taken(s))
  {
    var p, q := PlacesOf(s), PlacesOf(Taken(s));
    if s.cap.spare.Some? {
      assert q == p.(spare := None, capture := p.spare);
    } else if |s.chan.returned| > 0 {
      assert q == p.(capture := p.returned0, returned0 := p.returned1, returned1 := None);
    } else {
      assert q == p.(capture := Some(s.hist.buffers));
    }
  }

  lemma {:induction false} OfferedPlaces(s: State, decision: Option<nat>)
    requires s.cap.pc.Offering? && s.cap.spare.None? && !s.coder.pc.Exited?
    ensures var p, t := PlacesOf(s), Offered(s, decision);
      && t.cap.pc.Waiting? && t.hist.buffers == s.hist.buffers
      && (PlacesOf(t) == p.(capture := None, spare := p.capture)
          || (p.queued.None? && PlacesOf(t) == p.(capture := None, queued := p.capture)))
  {
    var p, t := PlacesOf(s), Offered(s, decision);
    if |s.chan.commands| < COMMAND_CAPACITY {
      assert t.chan.commands == [Encode(OfferedFrame(s))];
      assert PlacesOf(t) == p.(capture := None, queued := p.capture);
    } else {
      assert PlacesOf(t) == p.(capture := None, spare := p.capture);
    }
  }

  /** A buffer changes hands from the capture thread to an empty place. */
  lemma {:induction false} HandedOver(p: Places, q: Places)
    requires p.capture.Some?
    requires (p.spare.None? && q == p.(capture := None, spare := p.capture))
             || (p.queued.None? && q == p.(capture := None, queued := p.capture))
    ensures Live(q) == Live(p) && forall b: nat :: Owners(q, b) == Owners(p, b)
  {
  }

  lemma {:induction false} OfferMoves(s: State, decision: Option<nat>)
    requires s.cap.pc.Offering? && s.cap.spare.None? && !s.coder.pc.Exited?
    requires ChannelInv(s) && ChannelInv(Offered(s, decision))
    ensures Moves(s, OfferFrame(decision), Offered(s, decision))
  {
    OfferedPlaces(s, decision);
    HandedOver(PlacesOf(s), PlacesOf(Offered(s, decision)));
  }

  lemma {:induction false} ReceiveMoves(s: State)
    requires Enabled(s, Receive) && ChannelInv(s) && ChannelInv(Received(s))
    requires s.cap.pc.Offering? ==> s.cap.spare.None?
    ensures Moves(s, Receive, Received(s))
  {
    assert PlacesOf(Received(s)) == PlacesOf(s).(encode := PlacesOf(s).queued, queued := None);
  }

  lemma {:induction false} ReturnMoves(s: State)
    requires Enabled(s, ReturnBuffer) && ChannelInv(s) && ChannelInv(Returned(s))
    requires s.cap.pc.Offering? ==> s.cap.spare.None?
    ensures Moves(s, ReturnBuffer, Returned(s))
  {
    var t := Returned(s);
    if |s.chan.returned| == 0 {
      assert PlacesOf(t) == PlacesOf(s).(encode := None, returned0 := PlacesOf(s).encode);
    } else if |s.chan.returned| == 1 {
      assert PlacesOf(t) == PlacesOf(s).(encode := None, returned1 := PlacesOf(s).encode);
    } else {
      assert PlacesOf(t) == PlacesOf(s).(encode := None);
    }
  }

  /** The other steps leave every buffer where it is. */
  lemma {:induction false} OthersMoveNothing(s: State, l: Label)
    requires Enabled(s, l) && !l.TakeBuffer? && !l.OfferFrame? && !l.Receive? && !l.ReturnBuffer?
    ensures var t := Apply(s, l);
      && PlacesOf(t) == PlacesOf(s) && t.hist.buffers == s.hist.buffers
      && (t.cap.pc.Offering? ==> t.cap == s.cap)
  {
  }

  lemma {:induction false} StepMoves(s: State, l: Label)
    requires Enabled(s, l) && ChannelInv(s) && ChannelInv(Apply(s, l))
    requires l.OfferFrame? ==> !s.coder.pc.Exited?
    requires s.cap.pc.Offering? ==> s.cap.spare.None?
    ensures Moves(s, l, Apply(s, l))
  {
    if l.TakeBuffer? {
      TakeMoves(s);
    } else if l.OfferFrame? {
      OfferMoves(s, l.decision);
    } else if l.Receive? {
      ReceiveMoves(s);
    } else if l.ReturnBuffer? {
      ReturnMoves(s);
    } else {
      OthersMoveNothing(s, l);
      var t := Apply(s, l);
      assert !MakesBuffer(s, l) && !DropsBuffer(s, l);
      assert forall b: nat :: Owners(PlacesOf(t), b) == Owners(PlacesOf(s), b);
    }
  }

  lemma {:induction false} BufferStep(s: State, l: Label)
    requires Enabled(s, l) && BufferInv(s)
    requires l.OfferFrame? ==> !s.coder.pc.Exited?
    ensures BufferInv(Apply(s, l)) && Moves(s, l, Apply(s, l))
  {
    ChannelStep(s, l);
    StepMoves(s, l);
    CountsStay(s, l, Apply(s, l));
  }

  lemma {:induction false} CountsStay(s: State, l: Label, t: State)
    requires Enabled(s, l) && BufferInv(s) && ChannelInv(t) && Moves(s, l, t)
    ensures BufferInv(t)
  {
    forall b: nat ensures Owners(PlacesOf(t), b) <= One(b < t.hist.buffers) {
      assert Owners(PlacesOf(s), b) <= One(b < s.hist.buffers);
    }
  }

  // -------------------------------------------------------------------------
  // The end of the encode thread
  // -------------------------------------------------------------------------

  predicate NoStop(cs: seq<Command>, n: nat)
    requires n <= |cs|
  {
    forall i :: 0 <= i < n ==> !cs[i].Stop?
  }

  predicate Leaving(pc: CapturePc) {
    pc.Joining? || pc.Finished?
  }

  /** Stop enters the channel last, and the encode thread is gone exactly when it has been taken. */
  ghost predicate PhaseInv(s: State) {
    && ChannelInv(s)
    && var n := |s.hist.accepted|;
      if Leaving(s.cap.pc) then
        && n > 0 && s.hist.accepted[n - 1].Stop? && NoStop(s.hist.accepted, n - 1)
        && (s.coder.pc.Exited? <==> s.hist.taken == n)
        && (s.cap.pc.Finished? ==> s.coder.pc.Exited?)
      else
        NoStop(s.hist.accepted, n) && !s.coder.pc.Exited?
  }

  lemma {:induction false} ReceiveKeepsPhase(s: State)
    requires Enabled(s, Receive) && PhaseInv(s) && ChannelInv(Received(s))
    ensures PhaseInv(Received(s))
  {
    assert s.chan.commands[0] == s.hist.accepted[s.hist.taken];
  }

  lemma {:induction false} EncodeKeepsPhase(s: State, l: Label)
    requires Enabled(s, l) && EncodeSide(l) && !l.Receive?
    requires PhaseInv(s) && ChannelInv(Apply(s, l))
    ensures PhaseInv(Apply(s, l))
  {
    var t := Apply(s, l);
    assert t.cap == s.cap && !t.coder.pc.Exited? && t.hist.taken == s.hist.taken && t.hist.accepted == s.hist.accepted;
  }

  lemma {:induction false} SendKeepsPhase(s: State)
    requires Enabled(s, Send) && PhaseInv(s) && ChannelInv(Delivered(s))
    ensures PhaseInv(Delivered(s))
  {
  }

  lemma {:induction false} OfferedHistory(s: State, decision: Option<nat>)
    requires s.cap.pc.Offering? && !s.coder.pc.Exited?
    ensures var t := Offered(s, decision);
      && t.cap.pc.Waiting? && t.coder == s.coder
      && (t.hist.accepted == s.hist.accepted || t.hist.accepted == s.hist.accepted + [Encode(OfferedFrame(s))])
  {
  }

  lemma {:induction false} NoStopMore(cs: seq<Command>, c: Command)
    requires NoStop(cs, |cs|) && !c.Stop?
    ensures NoStop(cs + [c], |cs| + 1)
  {
  }

  lemma {:induction false} OfferKeepsPhase(s: State, decision: Option<nat>)
    requires s.cap.pc.Offering? && PhaseInv(s) && ChannelInv(Offered(s, decision))
    ensures PhaseInv(Offered(s, decision))
  {
    OfferedHistory(s, decision);
    NoStopMore(s.hist.accepted, Encode(OfferedFrame(s)));
  }

  lemma {:induction false} CaptureKeepsPhase(s: State, l: Label)
    requires Enabled(s, l) && !EncodeSide(l) && !l.Send? && !l.OfferFrame?
    requires PhaseInv(s) && ChannelInv(Apply(s, l))
    ensures PhaseInv(Apply(s, l))
  {
    var t := Apply(s, l);
    CaptureSide(s, l);
    assert t.hist.accepted == s.hist.accepted;
    assert Leaving(t.cap.pc) == Leaving(s.cap.pc);
  }

  lemma {:induction false} PhaseStep(s: State, l: Label)
    requires Enabled(s, l) && PhaseInv(s)
    ensures PhaseInv(Apply(s, l))
  {
    ChannelStep(s, l);
    if l.Receive? {
      ReceiveKeepsPhase(s);
    } else if EncodeSide(l) {
      EncodeKeepsPhase(s, l);
    } else if l.Send? {
      SendKeepsPhase(s);
    } else if l.OfferFrame? {
      OfferKeepsPhase(s, l.decision);
    } else {
      CaptureKeepsPhase(s, l);
    }
  }

  lemma {:induction false} BuffersHold(ls: seq<Label>)
    requires Run(ls).Some?
    ensures BufferInv(Run(ls).value) && PhaseInv(Run(ls).value)
  {
    if ls != [] {
      BuffersHold(ls[..|ls| - 1]);
      BufferStep(Run(ls[..|ls| - 1]).value, ls[|ls| - 1]);
      PhaseStep(Run(ls[..|ls| - 1]).value, ls[|ls| - 1]);
    }
  }

  /**
    In every reachable state each buffer is in one place at most, at most three
    are live, a rescued buffer never overwrites the spare, and offering a frame
    never finds the encode thread gone.  Whatever step comes next moves buffers:
    it makes one only if spare and return channel are empty, and loses one only
    if the return channel is full.
  */
  lemma {:induction false} BuffersHaveOneOwner(ls: seq<Label>)
    requires Run(ls).Some?
    ensures var s := Run(ls).value;
      && ChannelInv(s)
      && (forall b: nat :: Owners(PlacesOf(s), b) <= One(b < s.hist.buffers))
      && Live(PlacesOf(s)) <= 3
      && (s.cap.pc.Offering? ==> s.cap.spare.None? && !s.coder.pc.Exited?)
      && (forall l :: Enabled(s, l) ==> ChannelInv(Apply(s, l)) && Moves(s, l, Apply(s, l)))
  {
    BuffersHold(ls);
    var s := Run(ls).value;
    forall l | Enabled(s, l) ensures ChannelInv(Apply(s, l)) && Moves(s, l, Apply(s, l)) {
      BufferStep(s, l);
    }
  }

  // -------------------------------------------------------------------------
  // Shutdown
  // -------------------------------------------------------------------------

  /** Bounds the steps left once the command sender is gone. */
  function StepsLeft(s: State): nat {
    4 * |s.chan.commands| +
    (match s.cap.pc case Joining => 1 case Finished => 0 case _ => 6) +
    (match s.coder.pc case Encoding(_) => 2 case Opening(_) => 1 case Returning(_) => 1 case _ => 0)
  }

  predicate ShuttingDown(s: State) {
    s.cap.pc.Stopping? || s.cap.pc.Joining? || s.cap.pc.Finished?
  }

  lemma {:induction false} ShutdownStep(s: State, l: Label)
    requires ShuttingDown(s) && Enabled(s, l)
    ensures ShuttingDown(Apply(s, l)) && StepsLeft(Apply(s, l)) < StepsLeft(s)
  {
  }

  /** Before the capture thread is done, some thread can always move. */
  lemma {:induction false} ShutdownNeverStuck(s: State)
    requires PhaseInv(s) && ShuttingDown(s) && !s.cap.pc.Finished?
    ensures exists l :: Enabled(s, l)
  {
    if s.coder.pc.Encoding? {
      assert Enabled(s, EncodeFrame(Skipped));
    } else if s.coder.pc.Opening? {
      assert Enabled(s, OpenEncoder(false));
    } else if s.coder.pc.Returning? {
      assert Enabled(s, ReturnBuffer);
    } else if s.coder.pc.Exited? {
      assert Enabled(s, Join);
    } else if s.chan.commands != [] {
      assert Enabled(s, Receive);
    } else {
      assert Enabled(s, Send);
    }
  }

  lemma {:induction false} LastStep(ls: seq<Label>, more: seq<Label>)
    requires more != [] && Run(ls + more).Some?
    ensures var n := |more| - 1; var before := Run(ls + more[..n]);
      before.Some? && Possible(before.value, more[n]) && Run(ls + more) == Some(Apply(before.value, more[n]))
  {
    assert (ls + more)[..|ls + more| - 1] == ls + more[..|more| - 1];
  }

  lemma {:induction false} ShutdownRun(ls: seq<Label>, more: seq<Label>)
    requires Run(ls).Some? && ShuttingDown(Run(ls).value) && Run(ls + more).Some?
    ensures ShuttingDown(Run(ls + more).value)
    ensures |more| + StepsLeft(Run(ls + more).value) <= StepsLeft(Run(ls).value)
  {
    if more == [] {
      assert ls + more == ls;
    } else {
      var n := |more| - 1;
      LastStep(ls, more);
      ShutdownRun(ls, more[..n]);
      ShutdownStep(Run(ls + more[..n]).value, more[n]);
    }
  }

  lemma {:induction false} StepsAreFew(s: State)
    requires ChannelInv(s) && ShuttingDown(s)
    ensures StepsLeft(s) <= 12
  {
  }

  /**
    From the moment the command sender is gone, at most twelve steps remain in
    any interleaving; the run can only end with both threads gone, and by then
    every command that was ever queued, Stop last, has been taken.
  */
  lemma {:induction false} ShutdownTerminates(ls: seq<Label>, more: seq<Label>)
    requires Run(ls).Some? && ShuttingDown(Run(ls).value) && Run(ls + more).Some?
    ensures |more| <= StepsLeft(Run(ls).value) <= 12
    ensures var t := Run(ls + more).value;
      && ShuttingDown(t)
      && |more| + StepsLeft(t) <= StepsLeft(Run(ls).value)
      && (!t.cap.pc.Finished? ==> exists l :: Enabled(t, l))
      && (t.cap.pc.Finished? ==> t.coder.pc.Exited? && t.hist.taken == |t.hist.accepted|)
  {
    BuffersHold(ls);
    BuffersHold(ls + more);
    ShutdownRun(ls, more);
    StepsAreFew(Run(ls).value);
    var t := Run(ls + more).value;
    if !t.cap.pc.Finished? {
      ShutdownNeverStuck(t);
    }
  }

  // -------------------------------------------------------------------------
  // Where the guarantees end
  // -------------------------------------------------------------------------

  /** Extends a run by one step. */
  lemma {:induction false} Go(ls: seq<Label>, s: State, l: Label) returns (next: seq<Label>)
    requires Run(ls) == Some(s) && Possible(s, l)
    ensures Run(next) == Some(Apply(s, l))
  {
    next := ls + [l];
    assert next[..|ls|] == ls;
  }

  /** A thread that captures 2 x 2 pictures and has opened its encoder for them, or failed to. */
  predicate Primed(s: State, ready: bool) {
    && s.cap.pc.Waiting? && s.cap.recording
    && s.cap.maxSize == TWO && s.cap.enc == Dims(TWO, TWO)
    && s.cap.spare == Some(0) && !s.cap.pendingKeyframe
    && s.chan == Channels([], [])
    && s.coder.pc.Receiving? && s.coder.encoder.Some? == ready
    && (ready ==> s.coder.encoder.value.forceKeyframe)
    && s.hist.buffers == 1 && s.hist.codec == []
  }

  lemma {:induction false} Prime(ready: bool) returns (ls: seq<Label>)
    ensures Run(ls).Some? && Primed(Run(ls).value, ready)
  {
    ls := StartAndCapture();
    ls := FirstRestart(ls, Run(ls).value);
    ls := FirstEncoder(ls, Run(ls).value, ready);
  }

  lemma {:induction false} FirstEncoder(ls: seq<Label>, s: State, ready: bool) returns (next: seq<Label>)
    requires Run(ls) == Some(s) && FirstOpening(s)
    ensures Run(next).Some? && Primed(Run(next).value, ready)
  {
    assert EvenSize(s.coder.pc.dims.output) == TWO;
    if ready {
      next := Go(ls, s, OpenEncoder(true));
    } else {
      next := Go(ls, s, OpenEncoder(false));
    }
  }

  predicate FirstOpening(s: State) {
    && s.cap.pc.Waiting? && s.cap.recording && s.cap.spare == Some(0)
    && s.cap.maxSize == TWO && s.cap.enc == Dims(TWO, TWO) && !s.cap.pendingKeyframe
    && s.chan == Channels([], []) && s.coder == Coder(Opening(Dims(TWO, TWO)), None)
    && s.hist.buffers == 1 && s.hist.codec == []
  }

  predicate FirstCapture(s: State) {
    && s.cap.pc == Restarting(Dims(TWO, TWO)) && s.cap.recording && s.cap.spare.None?
    && s.cap.maxSize == TWO && s.cap.enc == Dims(TWO, TWO) && !s.cap.pendingKeyframe
    && s.chan == Channels([], []) && s.coder == Coder(Receiving, None)
    && s.hist.buffers == 0 && s.hist.codec == []
  }

  lemma {:induction false} FirstRestart(ls: seq<Label>, s: State) returns (next: seq<Label>)
    requires Run(ls) == Some(s)
    requires FirstCapture(s)
    ensures Run(next).Some? && FirstOpening(Run(next).value)
  {
    next := Go(ls, s, Send);
    next := Go(next, Run(next).value, TakeBuffer);
    next := Go(next, Run(next).value, OfferFrame(None));
    next := Go(next, Run(next).value, Receive);
  }

  const TWO := Size(2, 2)

  lemma {:induction false} StartAndCapture() returns (ls: seq<Label>)
    ensures Run(ls).Some? && FirstCapture(Run(ls).value)
  {
    OutputFitsTwo();
    ls := Go([], INIT, Local(StartCapture(true, TWO)));
    ls := Go(ls, Run(ls).value, Local(CaptureSucceeded(TWO, TWO)));
  }

  lemma {:induction false} OutputFitsTwo()
    ensures OutputSize(TWO, TWO) == TWO
  {
    OutputFits(TWO, TWO);
  }

  /** Captures one more picture and offers it. */
  lemma {:induction false} Shoot(ls: seq<Label>, s: State) returns (next: seq<Label>)
    requires Run(ls) == Some(s)
    requires s.cap.pc.Waiting? && s.cap.recording && !s.coder.pc.Exited?
    requires s.cap.maxSize == TWO && s.cap.enc == Dims(TWO, TWO)
    ensures var shot := s.(cap := s.cap.(failures := 0, pc := Filling(TWO)));
      Run(next) == Some(Offered(Taken(shot), None))
  {
    OutputFitsTwo();
    next := Go(ls, s, Local(CaptureSucceeded(TWO, TWO)));
    next := Go(next, Run(next).value, TakeBuffer);
    next := Go(next, Run(next).value, OfferFrame(None));
  }

  /** Encodes the frame at the head of the channel and returns its buffer. */
  lemma {:induction false} Serve(ls: seq<Label>, s: State, outcome: Outcome) returns (next: seq<Label>)
    requires Run(ls) == Some(s)
    requires s.coder.pc.Receiving? && s.chan.commands != [] && s.chan.commands[0].Encode?
    ensures Run(next) == Some(Returned(Encoded(Received(s), outcome)))
  {
    next := Go(ls, s, Receive);
    next := Go(next, Run(next).value, EncodeFrame(outcome));
    next := Go(next, Run(next).value, ReturnBuffer);
  }

  /** Three live buffers: one being encoded, one queued, one spare. */
  lemma {:induction false} ThreeBuffers() returns (ls: seq<Label>)
    ensures Run(ls).Some?
    ensures var s := Run(ls).value;
      && s.cap.pc.Waiting? && s.cap.recording && s.cap.spare == Some(2)
      && s.cap.maxSize == TWO && s.cap.enc == Dims(TWO, TWO)
      && s.coder.pc.Encoding? && s.coder.pc.frame.buffer == 0 && s.coder.encoder.None?
      && |s.chan.commands| == 1 && s.chan.commands[0].Encode? && s.chan.commands[0].frame.buffer == 1
      && s.chan.returned == []
  {
    ls := Prime(false);
    ls := Shoot(ls, Run(ls).value);
    ls := Go(ls, Run(ls).value, Receive);
    ls := Shoot(ls, Run(ls).value);
    ls := Shoot(ls, Run(ls).value);
  }

  /**
    Two places in the return channel are not plenty: with a spare in play, three
    buffers circulate, and this run ends where the third one finds the channel
    full and is freed.
  */
  lemma {:induction false} ReturnChannelCanOverflow() returns (ls: seq<Label>)
    ensures Run(ls).Some?
    ensures Enabled(Run(ls).value, ReturnBuffer) && DropsBuffer(Run(ls).value, ReturnBuffer)
    ensures Live(PlacesOf(Run(ls).value)) == 3
  {
    ls := ThreeBuffers();
    ls := Go(ls, Run(ls).value, EncodeFrame(Skipped));
    ls := Go(ls, Run(ls).value, ReturnBuffer);
    ls := Go(ls, Run(ls).value, Receive);
    ls := Shoot(ls, Run(ls).value);
    ls := Go(ls, Run(ls).value, EncodeFrame(Skipped));
    ls := Go(ls, Run(ls).value, ReturnBuffer);
    ls := Go(ls, Run(ls).value, Receive);
    ls := Go(ls, Run(ls).value, EncodeFrame(Skipped));
  }

  /** The flag is spent before the codec answers: here a codec's first accepted frame is a delta. */
  lemma {:induction false} RejectedIdrIsNotRepeated() returns (ls: seq<Label>)
    ensures Run(ls).Some?
    ensures var calls := Run(ls).value.hist.codec;
      && |calls| == 2 && calls[0].epoch == calls[1].epoch
      && calls[0].idr && !calls[0].accepted
      && !calls[1].idr && calls[1].accepted
  {
    ls := Prime(true);
    ls := Shoot(ls, Run(ls).value);
    ls := Serve(ls, Run(ls).value, Rejected);
    ls := Shoot(ls, Run(ls).value);
    ls := Serve(ls, Run(ls).value, Sent);
  }
}
