/**
  The capture thread and the encode thread of one client, as a step system.

  Every step is one thread's work between two operations on something the
  threads share: the command channel (capacity 1), the buffer-return channel
  (capacity 2), or the end of a thread.  FFmpeg, the recorder and the quality
  controller appear as the parameters of a step.
*/
module Pipeline {
  import opened Prelude
  import opened Scaling

  const COMMAND_CAPACITY := 1
  const RETURN_CAPACITY := 2
  const MAX_CAPTURE_FAILURES := 30

  datatype Dims = Dims(input: Size, output: Size)

  /** A frame offered to the encode thread; `buffer` is the identity of its pixel buffer. */
  datatype Frame = Frame(number: nat, size: Size, buffer: nat, keyframe: bool, qp: Option<nat>)

  datatype Command = Encode(frame: Frame) | Restart(dims: Dims) | Stop

  /** `epoch` tells one encoder instance from the next. */
  datatype Encoder = Encoder(epoch: nat, input: Size, output: Size, forceKeyframe: bool)

  /** One frame handed to a codec; `accepted` is what the codec answered. */
  datatype CodecCall = CodecCall(frame: Frame, epoch: nat, input: Size, idr: bool, accepted: bool)

  /** What the capture thread did that a client can care about, in order. */
  datatype Event = Requested | Decided(qp: nat) | Queued(frame: Frame)

  datatype CapturePc =
    | Waiting
    | Restarting(dims: Dims)
    | Filling(size: Size)
    | Offering(size: Size, buffer: nat)
    | Stopping
    | Joining
    | Finished

  datatype EncodePc =
    | Receiving
    | Opening(dims: Dims)
    | Encoding(frame: Frame)
    | Returning(buffer: nat)
    | Exited

  /** Variables of the capture thread. */
  datatype Capture = Capture(
    pc: CapturePc,
    recording: bool,
    maxSize: Size,
    enc: Dims,
    pendingKeyframe: bool,
    pendingQp: Option<nat>,
    spare: Option<nat>,
    failures: nat)

  /** What the threads share. */
  datatype Channels = Channels(commands: seq<Command>, returned: seq<nat>)

  /** Variables of the encode thread. */
  datatype Coder = Coder(pc: EncodePc, encoder: Option<Encoder>)

  /**
    What has happened so far: buffers and encoders made, everything that entered
    the command channel with the number of frames among it and how much of it
    has left, every call of a codec, and the capture thread's log.
  */
  datatype History = History(
    buffers: nat,
    epochs: nat,
    accepted: seq<Command>,
    queued: nat,
    taken: nat,
    codec: seq<CodecCall>,
    log: seq<Event>)

  datatype State = State(cap: Capture, chan: Channels, coder: Coder, hist: History)

  /** What a codec makes of a frame: `Skipped` is an early return before the codec is called. */
  datatype Outcome = Sent | Rejected | Skipped

  /** Steps that touch the capture thread's own variables only. */
  datatype LocalStep =
    | StartCapture(started: bool, maxSize: Size)
    | RestartVideo
    | CaptureFailed
    | CaptureSucceeded(size: Size, output: Size)
    | Disconnect

  datatype Label =
    | Local(step: LocalStep)
    | RequestKeyframe
    | Send
    | TakeBuffer
    | OfferFrame(decision: Option<nat>)
    | Join
    | Receive
    | OpenEncoder(ok: bool)
    | EncodeFrame(outcome: Outcome)
    | ReturnBuffer

  const INIT := State(
    Capture(Waiting, false, Size(1920, 1080), Dims(Size(0, 0), Size(0, 0)), false, None, None, 0),
    Channels([], []),
    Coder(Receiving, None),
    History(0, 0, [], 0, 0, [], []))

  /** `VideoEncoder::new` rounds the output down to even numbers. */
  function EvenSize(s: Size): Size {
    Size(Even(s.w), Even(s.h))
  }

  function Even(n: nat): (m: nat)
    ensures m % 2 == 0 && n - 1 <= m <= n
  {
    n - n % 2
  }

  // -------------------------------------------------------------------------
  // Steps
  // -------------------------------------------------------------------------

  predicate LocalEnabled(c: Capture, l: LocalStep) {
    c.pc.Waiting? && (l.CaptureFailed? || l.CaptureSucceeded? ==> c.recording)
  }

  predicate Enabled(s: State, l: Label) {
    match l
    case Local(step) => LocalEnabled(s.cap, step)
    case RequestKeyframe => s.cap.pc.Waiting?
    case Send => (s.cap.pc.Restarting? || s.cap.pc.Stopping?) && |s.chan.commands| < COMMAND_CAPACITY
    case TakeBuffer => s.cap.pc.Filling?
    case OfferFrame(_) => s.cap.pc.Offering?
    case Join => s.cap.pc.Joining? && s.coder.pc.Exited?
    case Receive => s.coder.pc.Receiving? && s.chan.commands != []
    case OpenEncoder(ok) => s.coder.pc.Opening? && (ok ==> CanOpen(s.coder.pc.dims.output))
    case EncodeFrame(_) => s.coder.pc.Encoding?
    case ReturnBuffer => s.coder.pc.Returning?
  }

  predicate CanOpen(output: Size) {
    EvenSize(output).w > 1 && EvenSize(output).h > 1
  }

  function LocalApply(c: Capture, l: LocalStep): Capture
    requires LocalEnabled(c, l)
  {
    match l
    case StartCapture(started, max) =>
      c.(recording := started, maxSize := if started then max else c.maxSize,
         enc := c.enc.(input := c.enc.input.(w := 0)))
    case RestartVideo => c.(enc := c.enc.(input := c.enc.input.(w := 0)))
    case CaptureFailed =>
      c.(failures := c.failures + 1, recording := c.failures + 1 < MAX_CAPTURE_FAILURES)
    case CaptureSucceeded(size, output) =>
      var dims := Dims(size, output);
      if c.enc != dims
      then c.(failures := 0, enc := dims, pc := Restarting(dims))
      else c.(failures := 0, pc := Filling(size))
    case Disconnect => c.(pc := Stopping)
  }

  function Accept(h: History, c: Command): History {
    h.(accepted := h.accepted + [c], queued := h.queued + if c.Encode? then 1 else 0)
  }

  function Note(h: History, events: seq<Event>): History {
    h.(log := h.log + events)
  }

  function Delivered(s: State): State
    requires s.cap.pc.Restarting? || s.cap.pc.Stopping?
  {
    var c := if s.cap.pc.Restarting? then Restart(s.cap.pc.dims) else Stop;
    var pc := if s.cap.pc.Restarting? then Filling(s.cap.pc.dims.input) else Joining;
    State(s.cap.(pc := pc), s.chan.(commands := s.chan.commands + [c]), s.coder, Accept(s.hist, c))
  }

  /** The frame the capture thread builds from its pending requests. */
  function OfferedFrame(s: State): Frame
    requires s.cap.pc.Offering?
  {
    Frame(s.hist.queued, s.cap.pc.size, s.cap.pc.buffer, s.cap.pendingKeyframe, s.cap.pendingQp)
  }

  function DecisionEvents(decision: Option<nat>): seq<Event> {
    if decision.Some? then [Decided(decision.value)] else []
  }

  /**
    Offering a frame and then letting the controller decide: a queued frame
    takes the pending requests with it, a refused one gives its buffer and its
    requests back.
  */
  function Offered(s: State, decision: Option<nat>): State
    requires s.cap.pc.Offering?
  {
    if s.coder.pc.Exited? then
      s.(cap := s.cap.(pc := Finished, pendingQp := None))
    else if |s.chan.commands| < COMMAND_CAPACITY then
      var f := OfferedFrame(s);
      State(s.cap.(pc := Waiting, pendingKeyframe := false, pendingQp := decision),
            s.chan.(commands := s.chan.commands + [Encode(f)]),
            s.coder,
            Note(Note(Accept(s.hist, Encode(f)), [Queued(f)]), DecisionEvents(decision)))
    else
      State(s.cap.(pc := Waiting, spare := Some(s.cap.pc.buffer),
                   pendingQp := if decision.Some? then decision else s.cap.pendingQp),
            s.chan,
            s.coder,
            Note(s.hist, DecisionEvents(decision)))
  }

  function Taken(s: State): State
    requires s.cap.pc.Filling?
  {
    var size := s.cap.pc.size;
    if s.cap.spare.Some? then
      s.(cap := s.cap.(pc := Offering(size, s.cap.spare.value), spare := None))
    else if s.chan.returned != [] then
      s.(cap := s.cap.(pc := Offering(size, s.chan.returned[0])),
         chan := s.chan.(returned := s.chan.returned[1..]))
    else
      s.(cap := s.cap.(pc := Offering(size, s.hist.buffers)),
         hist := s.hist.(buffers := s.hist.buffers + 1))
  }

  function Received(s: State): State
    requires s.chan.commands != []
  {
    var c := s.chan.commands[0];
    var pc := match c case Encode(f) => Encoding(f) case Restart(d) => Opening(d) case Stop => Exited;
    s.(chan := s.chan.(commands := s.chan.commands[1..]),
       coder := s.coder.(pc := pc),
       hist := s.hist.(taken := s.hist.taken + 1))
  }

  function Opened(s: State, ok: bool): State
    requires s.coder.pc.Opening?
  {
    var d := s.coder.pc.dims;
    if ok
    then s.(coder := Coder(Receiving, Some(Encoder(s.hist.epochs, d.input, EvenSize(d.output), true))),
            hist := s.hist.(epochs := s.hist.epochs + 1))
    else s.(coder := Coder(Receiving, None))
  }

  function Encoded(s: State, outcome: Outcome): State
    requires s.coder.pc.Encoding?
  {
    var f := s.coder.pc.frame;
    var pc := Returning(f.buffer);
    if s.coder.encoder.None? then
      s.(coder := s.coder.(pc := pc))
    else
      var e := s.coder.encoder.value;
      var idr := e.forceKeyframe || f.keyframe;
      if outcome.Skipped?
      then s.(coder := Coder(pc, Some(e.(forceKeyframe := idr))))
      else s.(coder := Coder(pc, Some(e.(forceKeyframe := false))),
              hist := s.hist.(codec := s.hist.codec + [CodecCall(f, e.epoch, e.input, idr, outcome.Sent?)]))
  }

  function Returned(s: State): State
    requires s.coder.pc.Returning?
  {
    s.(coder := s.coder.(pc := Receiving),
       chan := if |s.chan.returned| < RETURN_CAPACITY
               then s.chan.(returned := s.chan.returned + [s.coder.pc.buffer]) else s.chan)
  }

  function Apply(s: State, l: Label): State
    requires Enabled(s, l)
  {
    match l
    case Local(step) => s.(cap := LocalApply(s.cap, step))
    case RequestKeyframe => s.(cap := s.cap.(pendingKeyframe := true), hist := Note(s.hist, [Requested]))
    case Send => Delivered(s)
    case TakeBuffer => Taken(s)
    case OfferFrame(decision) => Offered(s, decision)
    case Join => s.(cap := s.cap.(pc := Finished))
    case Receive => Received(s)
    case OpenEncoder(ok) => Opened(s, ok)
    case EncodeFrame(outcome) => Encoded(s, outcome)
    case ReturnBuffer => Returned(s)
  }

  predicate IsCapture(l: Label) {
    l.Local? && l.step.CaptureSucceeded?
  }

  /** A captured picture is scaled into the limits the capture thread has at that moment. */
  predicate Fitted(s: State, l: Label) {
    IsCapture(l) ==> l.step.output == OutputSize(s.cap.maxSize, l.step.size)
  }

  predicate Possible(s: State, l: Label) {
    Enabled(s, l) && Fitted(s, l)
  }

  /** The state after a sequence of steps, if each of them was possible in turn. */
  function Run(ls: seq<Label>): Option<State> {
    if ls == [] then Some(INIT)
    else
      var before := Run(ls[..|ls| - 1]);
      if before.Some? && Possible(before.value, ls[|ls| - 1])
      then Some(Apply(before.value, ls[|ls| - 1]))
      else None
  }
}
