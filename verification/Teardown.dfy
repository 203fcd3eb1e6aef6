/**
  How a client's threads end: reader task, handler thread, video thread, encode thread
  and writer task, each blocking only on the next.  The writer ends when its socket fails,
  when it hears the close of the video queue, or when everyone who could send is gone.
*/
module Teardown {
  import opened Prelude

  const CHANNEL_BUFFER_SIZE := 32
  const VIDEO_QUEUE_CAPACITY := 4

  /**
    What handling an inbound message takes: replies to be sent, and commands for the video
    thread, each of which may have it report to the client (`true`).
  */
  datatype Work = Work(replies: nat, commands: seq<bool>)

  datatype Handler = Looping | Handling(work: Work) | Joining | Leaving | Gone

  datatype Video = Waiting | Reporting | SendingRestart | Offering | SendingStop | JoiningEncode | VideoDone

  datatype Command = Frame | Restart | Stop

  /** `Sending(n)`: n more messages to the client before the next command. */
  datatype Encode = Idle | Sending(n: nat) | EncodeDone

  /** What runs to the client: the outbound channel, the video queue, and the writer that empties both. */
  datatype Wire = Wire(outbound: nat, frames: nat, writer: bool)

  /** `panicked`: the handler left by a panic.  `counted`: times the client is in the client counter. */
  datatype State = State(reading: bool, inbound: seq<Work>, handler: Handler, panicked: bool, counted: nat,
                         commands: seq<bool>, video: Video, chan: Option<Command>, encode: Encode, wire: Wire)

  const INIT := State(true, [], Looping, false, 1, [], Waiting, None, Idle, Wire(0, 0, true))

  datatype Label =
    | Receive(work: Work)
    | Break
    | TakeMessage
    | Reply
    | Instruct
    | MessageDone
    | EndLoop
    | Panic
    | Join
    | Leave
    | Tick(next: Video)
    | TakeCommand
    | Disconnect
    | Report
    | SendRestart
    | Offer
    | SendStop
    | JoinEncode
    | EncodeTake(messages: nat)
    | EncodeSend
    | WriteFrames
    | WriteMessage
    | WriterEnds
    | CloseHeard
    | WriteFails

  // -------------------------------------------------------------------------
  // Steps
  // -------------------------------------------------------------------------

  /** The handler still holds its end of the channel to the video thread. */
  predicate Commanding(s: State) {
    s.handler.Looping? || s.handler.Handling?
  }

  /** A send to the client goes through, or fails at once because the writer is gone. */
  predicate CanSend(w: Wire) {
    !w.writer || w.outbound < CHANNEL_BUFFER_SIZE
  }

  function Sent(w: Wire): Wire {
    if w.writer then w.(outbound := w.outbound + 1) else w
  }

  function Pushed(w: Wire): Wire {
    w.(frames := Min(VIDEO_QUEUE_CAPACITY, w.frames + 1))
  }

  /** Everyone who could still send to the writer is gone. */
  predicate SendersGone(s: State) {
    (s.handler.Leaving? || s.handler.Gone?) && s.video.VideoDone? && s.encode.EncodeDone?
  }

  predicate Possible(s: State, l: Label) {
    match l
    case Receive(_) => s.reading && Commanding(s) && |s.inbound| < CHANNEL_BUFFER_SIZE
    case Break => s.reading
    case TakeMessage => s.handler.Looping? && s.inbound != []
    case Reply => s.handler.Handling? && s.handler.work.replies > 0 && CanSend(s.wire)
    case Instruct => s.handler.Handling? && s.handler.work.commands != []
    case MessageDone => s.handler.Handling? && s.handler.work == Work(0, [])
    case EndLoop => s.handler.Looping? && s.inbound == [] && !s.reading
    case Panic => Commanding(s)
    case Join => s.handler.Joining? && s.video.VideoDone?
    case Leave => s.handler.Leaving?
    case Tick(next) =>
      && s.video.Waiting? && s.commands == [] && Commanding(s)
      && (next.Waiting? || next.Reporting? || next.SendingRestart? || next.Offering?)
    case TakeCommand => s.video.Waiting? && s.commands != []
    case Disconnect => s.video.Waiting? && s.commands == [] && !Commanding(s)
    case Report => s.video.Reporting? && CanSend(s.wire)
    case SendRestart => s.video.SendingRestart? && s.chan == None
    case Offer => s.video.Offering?
    case SendStop => s.video.SendingStop? && s.chan == None
    case JoinEncode => s.video.JoiningEncode? && s.encode.EncodeDone?
    case EncodeTake(messages) =>
      s.encode.Idle? && s.chan.Some? && (s.chan == Some(Restart) ==> 1 <= messages <= 2)
    case EncodeSend => s.encode.Sending? && CanSend(s.wire)
    case WriteFrames => s.wire.writer && s.wire.frames > 0
    case WriteMessage => s.wire.writer && s.wire.frames == 0 && s.wire.outbound > 0
    case WriterEnds => s.wire.writer && s.wire.frames == 0 && s.wire.outbound == 0 && SendersGone(s)
    case CloseHeard => s.wire.writer && s.wire.frames == 0 && !s.reading
    case WriteFails => s.wire.writer
  }

  function Apply(s: State, l: Label): State
    requires Possible(s, l)
  {
    match l
    case Receive(work) => s.(inbound := s.inbound + [work])
    case Break => s.(reading := false)
    case TakeMessage => s.(inbound := s.inbound[1..], handler := Handling(s.inbound[0]))
    case Reply =>
      s.(handler := Handling(s.handler.work.(replies := s.handler.work.replies - 1)), wire := Sent(s.wire))
    case Instruct =>
      s.(handler := Handling(s.handler.work.(commands := s.handler.work.commands[1..])),
         commands := s.commands + [s.handler.work.commands[0]])
    case MessageDone => s.(handler := Looping)
    case EndLoop => s.(handler := Joining)
    case Panic => s.(handler := Leaving, inbound := [], panicked := true)
    case Join => s.(handler := Leaving)
    case Leave => s.(handler := Gone, counted := if s.counted > 0 then s.counted - 1 else 0)
    case Tick(next) => s.(video := next)
    case TakeCommand =>
      s.(commands := s.commands[1..], video := if s.commands[0] then Reporting else Waiting)
    case Disconnect => s.(video := SendingStop)
    case Report => s.(video := Waiting, wire := Sent(s.wire))
    case SendRestart => s.(video := Offering, chan := Some(Restart))
    case Offer => s.(video := Waiting, chan := if s.chan == None then Some(Frame) else s.chan)
    case SendStop => s.(video := JoiningEncode, chan := Some(Stop))
    case JoinEncode => s.(video := VideoDone)
    case EncodeTake(messages) =>
      (match s.chan.value
       case Frame => s.(chan := None, wire := Pushed(s.wire))
       case Restart => s.(chan := None, encode := Sending(messages))
       case Stop => s.(chan := None, encode := EncodeDone))
    case EncodeSend =>
      s.(encode := if s.encode.n <= 1 then Idle else Sending(s.encode.n - 1), wire := Sent(s.wire))
    case WriteFrames => s.(wire := s.wire.(frames := 0))
    case WriteMessage => s.(wire := s.wire.(outbound := s.wire.outbound - 1))
    case _ => s.(wire := s.wire.(writer := false, outbound := 0))
  }

  predicate AllPossible(s: State, ls: seq<Label>)
    decreases |ls|
  {
    ls == [] || (Possible(s, ls[0]) && AllPossible(Apply(s, ls[0]), ls[1..]))
  }

  function Run(s: State, ls: seq<Label>): State
    requires AllPossible(s, ls)
    decreases |ls|
  {
    if ls == [] then s else Run(Apply(s, ls[0]), ls[1..])
  }

  // -------------------------------------------------------------------------
  // What every run keeps
  // -------------------------------------------------------------------------

  /** Stop is the last command: it is sent once the video thread is through, and ends the encode thread. */
  predicate StopIsLast(s: State) {
    && (s.chan == Some(Stop) ==> s.video.JoiningEncode?)
    && (s.video.JoiningEncode? ==> s.chan == Some(Stop) || s.encode.EncodeDone?)
    && (s.encode.EncodeDone? ==> s.chan == None && (s.video.JoiningEncode? || s.video.VideoDone?))
    && (s.video.VideoDone? ==> s.encode.EncodeDone?)
  }

  /** The video thread winds up only after the handler has let go of it. */
  predicate VideoEndsAfter(s: State) {
    && (s.video.SendingStop? || s.video.JoiningEncode? || s.video.VideoDone? ==> s.commands == [] && !Commanding(s))
    && ((s.handler.Leaving? || s.handler.Gone?) && !s.panicked ==> s.video.VideoDone?)
    && (s.panicked ==> s.handler.Leaving? || s.handler.Gone?)
  }

  predicate CountedOnce(s: State) {
    s.counted == if s.handler.Gone? then 0 else 1
  }

  predicate Good(s: State) {
    StopIsLast(s) && VideoEndsAfter(s) && CountedOnce(s) && (s.encode.Sending? ==> s.encode.n > 0)
  }

  predicate OfHandler(l: Label) {
    l.TakeMessage? || l.Reply? || l.Instruct? || l.MessageDone? || l.EndLoop? || l.Panic? || l.Join? || l.Leave?
  }

  predicate OfVideo(l: Label) {
    l.Tick? || l.TakeCommand? || l.Disconnect? || l.Report? || l.SendRestart? || l.Offer? || l.SendStop? || l.JoinEncode?
  }

  lemma {:induction false} HandlerKeepsGood(s: State, l: Label)
    requires Good(s) && Possible(s, l) && OfHandler(l)
    ensures Good(Apply(s, l))
  {
  }

  lemma {:induction false} VideoKeepsGood(s: State, l: Label)
    requires Good(s) && Possible(s, l) && OfVideo(l)
    ensures Good(Apply(s, l))
  {
  }

  lemma {:induction false} OutwardKeepsGood(s: State, l: Label)
    requires Good(s) && Possible(s, l) && !OfHandler(l) && !OfVideo(l)
    ensures Good(Apply(s, l))
  {
  }

  lemma {:induction false} GoodStep(s: State, l: Label)
    requires Good(s) && Possible(s, l)
    ensures Good(Apply(s, l))
  {
    if OfHandler(l) {
      HandlerKeepsGood(s, l);
    } else if OfVideo(l) {
      VideoKeepsGood(s, l);
    } else {
      OutwardKeepsGood(s, l);
    }
  }

  lemma {:induction false} GoodRun(s: State, ls: seq<Label>)
    requires Good(s) && AllPossible(s, ls)
    ensures Good(Run(s, ls))
    decreases |ls|
  {
    if ls != [] {
      GoodStep(s, ls[0]);
      GoodRun(Apply(s, ls[0]), ls[1..]);
    }
  }

  /**
    Over every run the client counts exactly until its handler is gone, by return or by
    panic; and a handler that returns has both of its threads ended before it.
  */
  lemma {:induction false} CountsUntilGone(ls: seq<Label>)
    requires AllPossible(INIT, ls)
    ensures var s := Run(INIT, ls);
      && s.counted == (if s.handler.Gone? then 0 else 1)
      && (s.handler.Gone? && !s.panicked ==> s.video.VideoDone? && s.encode.EncodeDone? && s.chan == None)
  {
    GoodRun(INIT, ls);
  }

  // -------------------------------------------------------------------------
  // No deadlock
  // -------------------------------------------------------------------------

  predicate Finished(s: State) {
    s.handler.Gone? && s.video.VideoDone? && s.encode.EncodeDone? && !s.wire.writer
  }

  /** What makes room for a send. */
  function NextOfWriter(s: State): Label {
    if s.wire.frames > 0 then WriteFrames else if s.wire.outbound > 0 then WriteMessage else WriterEnds
  }

  function NextOfEncode(s: State): Label {
    if s.encode.Idle? then EncodeTake(1) else if CanSend(s.wire) then EncodeSend else NextOfWriter(s)
  }

  function NextOfVideo(s: State): Label {
    match s.video
    case Waiting => if s.commands != [] then TakeCommand else Disconnect
    case Reporting => if CanSend(s.wire) then Report else NextOfWriter(s)
    case SendingRestart => if s.chan == None then SendRestart else NextOfEncode(s)
    case Offering => Offer
    case SendingStop => if s.chan == None then SendStop else NextOfEncode(s)
    case JoiningEncode => if s.encode.EncodeDone? then JoinEncode else NextOfEncode(s)
    case VideoDone => NextOfWriter(s)
  }

  function NextOfHandler(s: State): Label {
    match s.handler
    case Looping => if s.inbound != [] then TakeMessage else EndLoop
    case Handling(work) =>
      if work.commands != [] then Instruct
      else if work.replies == 0 then MessageDone
      else if CanSend(s.wire) then Reply
      else NextOfWriter(s)
    case Joining => if s.video.VideoDone? then Join else NextOfVideo(s)
    case Leaving => Leave
    case Gone => NextOfVideo(s)
  }

  /** Steps that nobody can count on: capture ticks, panics, failing sockets, a close that is heard. */
  predicate Uncertain(l: Label) {
    l.Tick? || l.Panic? || l.WriteFails? || l.CloseHeard?
  }

  /** Once reading is over there is always a step on the way out, until all is over. */
  lemma {:induction false} NeverStuck(s: State)
    requires Good(s) && !s.reading && !Finished(s)
    ensures Possible(s, NextOfHandler(s)) && !Uncertain(NextOfHandler(s))
  {
  }

  // -------------------------------------------------------------------------
  // Termination
  // -------------------------------------------------------------------------

  function WorkLeft(w: Work): nat {
    2 * w.replies + 4 * |w.commands|
  }

  function InboundLeft(ws: seq<Work>): nat {
    if ws == [] then 0 else 2 + WorkLeft(ws[0]) + InboundLeft(ws[1..])
  }

  function HandlerLeft(h: Handler): nat {
    match h
    case Looping => 3
    case Handling(work) => 4 + WorkLeft(work)
    case Joining => 2
    case Leaving => 1
    case Gone => 0
  }

  function VideoLeft(v: Video): nat {
    match v
    case Waiting => 4
    case Reporting => 6
    case SendingRestart => 13
    case Offering => 7
    case SendingStop => 3
    case JoiningEncode => 1
    case VideoDone => 0
  }

  function ChanLeft(c: Option<Command>): nat {
    match c
    case None => 0
    case Some(Frame) => 2
    case Some(Restart) => 5
    case Some(Stop) => 1
  }

  function EncodeLeft(e: Encode): nat {
    if e.Sending? then 2 * e.n else 0
  }

  function WireLeft(w: Wire): nat {
    w.outbound + w.frames + if w.writer then 1 else 0
  }

  /** What is left to do, each thing weighed so that doing it takes more away than it adds. */
  function Left(s: State): nat {
    InboundLeft(s.inbound) + HandlerLeft(s.handler) + 3 * |s.commands| + VideoLeft(s.video) +
    ChanLeft(s.chan) + EncodeLeft(s.encode) + WireLeft(s.wire)
  }

  predicate Lighter(s: State, l: Label) {
    Possible(s, l) && if l.Tick? then Left(Apply(s, l)) <= Left(s) + 9 else Left(Apply(s, l)) < Left(s)
  }

  lemma {:induction false} HandlerStepLeaves(s: State, l: Label)
    requires Possible(s, l) && OfHandler(l)
    ensures Lighter(s, l)
  {
  }

  predicate SendsOn(l: Label) {
    l.Report? || l.SendRestart? || l.Offer? || l.SendStop?
  }

  lemma {:induction false} SendingStepLeaves(s: State, l: Label)
    requires Possible(s, l) && SendsOn(l)
    ensures Lighter(s, l)
  {
  }

  lemma {:induction false} VideoStepLeaves(s: State, l: Label)
    requires Possible(s, l) && OfVideo(l)
    ensures Lighter(s, l)
  {
    if SendsOn(l) {
      SendingStepLeaves(s, l);
    }
  }

  lemma {:induction false} OutwardStepLeaves(s: State, l: Label)
    requires Good(s) && Possible(s, l) && !s.reading && !OfHandler(l) && !OfVideo(l)
    ensures Lighter(s, l)
  {
  }

  lemma {:induction false} StepLeaves(s: State, l: Label)
    requires Good(s) && Possible(s, l) && !s.reading
    ensures Lighter(s, l) && !Apply(s, l).reading
  {
    if OfHandler(l) {
      HandlerStepLeaves(s, l);
    } else if OfVideo(l) {
      VideoStepLeaves(s, l);
    } else {
      OutwardStepLeaves(s, l);
    }
  }

  function Ticks(ls: seq<Label>): nat {
    if ls == [] then 0 else (if ls[0].Tick? then 1 else 0) + Ticks(ls[1..])
  }

  /**
    After reading is over, every run is bounded by what was left and by the capture ticks in
    it; and there are none of those once the handler has left its loop.
  */
  lemma {:induction false} TeardownIsBounded(s: State, ls: seq<Label>)
    requires Good(s) && !s.reading && AllPossible(s, ls)
    ensures |ls| + Left(Run(s, ls)) <= Left(s) + 10 * Ticks(ls)
    ensures !Commanding(s) ==> Ticks(ls) == 0
    decreases |ls|
  {
    if ls != [] {
      StepLeaves(s, ls[0]);
      GoodStep(s, ls[0]);
      TeardownIsBounded(Apply(s, ls[0]), ls[1..]);
    }
  }

  /** A run that may not go on is one in which all threads and tasks have ended and the client is counted out. */
  lemma {:induction false} StopsOnlyWhenFinished(ls: seq<Label>)
    requires AllPossible(INIT, ls) && !Run(INIT, ls).reading
    requires forall l :: Possible(Run(INIT, ls), l) ==> Uncertain(l)
    ensures Finished(Run(INIT, ls)) && Run(INIT, ls).counted == 0
  {
    GoodRun(INIT, ls);
    if !Finished(Run(INIT, ls)) {
      NeverStuck(Run(INIT, ls));
    }
  }

  // -------------------------------------------------------------------------
  // Why ticks count
  // -------------------------------------------------------------------------

  lemma {:induction false} StepOfRun(s: State, ls: seq<Label>, l: Label)
    requires AllPossible(s, ls) && Possible(Run(s, ls), l)
    ensures AllPossible(s, ls + [l]) && Run(s, ls + [l]) == Apply(Run(s, ls), l)
    decreases |ls|
  {
    if ls == [] {
      assert AllPossible(Apply(s, l), []);
      assert [l][1..] == [];
    } else {
      assert (ls + [l])[0] == ls[0] && (ls + [l])[1..] == ls[1..] + [l];
      StepOfRun(Apply(s, ls[0]), ls[1..], l);
    }
  }

  lemma {:induction false} Go(ls: seq<Label>, l: Label) returns (next: seq<Label>)
    requires AllPossible(INIT, ls) && Possible(Run(INIT, ls), l)
    ensures AllPossible(INIT, next) && Run(INIT, next) == Apply(Run(INIT, ls), l) && |next| == |ls| + 1
  {
    StepOfRun(INIT, ls, l);
    next := ls + [l];
  }

  /** The handler waits for room in a full outbound channel, with one more reply to send. */
  function Blocked(replies: nat, outbound: nat): State {
    State(false, [], Handling(Work(replies, [])), false, 1, [], Waiting, None, Idle, Wire(outbound, 0, true))
  }

  lemma {:induction false} FillOutbound() returns (ls: seq<Label>)
    ensures AllPossible(INIT, ls) && Run(INIT, ls) == Blocked(1, CHANNEL_BUFFER_SIZE)
  {
    ls := Go([], Receive(Work(CHANNEL_BUFFER_SIZE + 1, [])));
    ls := Go(ls, TakeMessage);
    ls := Go(ls, Break);
    for k := 0 to CHANNEL_BUFFER_SIZE
      invariant AllPossible(INIT, ls) && Run(INIT, ls) == Blocked(CHANNEL_BUFFER_SIZE + 1 - k, k)
    {
      ls := Go(ls, Reply);
    }
  }

  /**
    No bound without ticks: with reading over and the handler waiting for room in the outbound
    channel, captured frames can keep the writer, which sends them first, busy as long as it likes.
  */
  lemma {:induction false} TicksCanStarve(n: nat) returns (ls: seq<Label>)
    ensures AllPossible(INIT, ls) && |ls| >= n && Run(INIT, ls) == Blocked(1, CHANNEL_BUFFER_SIZE)
  {
    ls := FillOutbound();
    for k := 0 to n
      invariant AllPossible(INIT, ls) && |ls| >= k && Run(INIT, ls) == Blocked(1, CHANNEL_BUFFER_SIZE)
    {
      ls := Go(ls, Tick(Offering));
      ls := Go(ls, Offer);
      ls := Go(ls, EncodeTake(1));
      ls := Go(ls, WriteFrames);
    }
  }

  // -------------------------------------------------------------------------
  // Leaving, tick by tick
  // -------------------------------------------------------------------------

  /** What the handler itself has left to do, and be told to do. */
  function HandlersWork(s: State): nat {
    InboundLeft(s.inbound) + HandlerLeft(s.handler)
  }

  function HandlerSteps(ls: seq<Label>): nat {
    if ls == [] then 0 else (if OfHandler(ls[0]) then 1 else 0) + HandlerSteps(ls[1..])
  }

  lemma {:induction false} HandlerStepCounts(s: State, l: Label)
    requires Possible(s, l) && !s.reading
    ensures HandlersWork(Apply(s, l)) + (if OfHandler(l) then 1 else 0) <= HandlersWork(s)
  {
    if OfHandler(l) {
      HandlersStepCounts(s, l);
    }
  }

  lemma {:induction false} HandlersStepCounts(s: State, l: Label)
    requires Possible(s, l) && OfHandler(l)
    ensures HandlersWork(Apply(s, l)) < HandlersWork(s)
  {
  }

  /** Ticks give the handler nothing to do: its own steps are bounded by what was there when reading ended. */
  lemma {:induction false} HandlerIsBounded(s: State, ls: seq<Label>)
    requires Good(s) && !s.reading && AllPossible(s, ls)
    ensures HandlerSteps(ls) + HandlersWork(Run(s, ls)) <= HandlersWork(s)
    decreases |ls|
  {
    if ls != [] {
      StepLeaves(s, ls[0]);
      GoodStep(s, ls[0]);
      HandlerStepCounts(s, ls[0]);
      HandlerIsBounded(Apply(s, ls[0]), ls[1..]);
    }
  }

  // -------------------------------------------------------------------------
  // When there is a bound
  // -------------------------------------------------------------------------

  /** The capture thread waits with nothing to do, so a tick can come at any time. */
  predicate Ticking(s: State) {
    Good(s) && !s.reading && Commanding(s) && s.video.Waiting? && s.commands == []
  }

  /** A step of the video thread towards that, or one that makes way for it. */
  function NextToTicking(s: State): Label {
    if s.wire.writer then WriteFails
    else
      match s.video
      case Waiting => TakeCommand
      case Reporting => Report
      case SendingRestart =>
        if s.chan == None then SendRestart else if s.encode.Idle? then EncodeTake(1) else EncodeSend
      case _ => Offer
  }

  lemma {:induction false} StepToTicking(s: State)
    requires Good(s) && !s.reading && Commanding(s) && !(s.video.Waiting? && s.commands == [])
    ensures var l := NextToTicking(s);
      Possible(s, l) && !l.Tick? && Apply(s, l).handler == s.handler
  {
  }

  lemma {:induction false} ToTicking(s: State) returns (ls: seq<Label>)
    requires Good(s) && !s.reading && Commanding(s)
    ensures AllPossible(s, ls) && Ticking(Run(s, ls))
    decreases Left(s)
  {
    if s.video.Waiting? && s.commands == [] {
      ls := [];
    } else {
      var l := NextToTicking(s);
      StepToTicking(s);
      StepLeaves(s, l);
      GoodStep(s, l);
      var rest := ToTicking(Apply(s, l));
      ls := [l] + rest;
      assert ls[1..] == rest;
    }
  }

  /** Ticks that capture nothing change nothing. */
  lemma {:induction false} TickOn(s: State, ls: seq<Label>, n: nat) returns (more: seq<Label>)
    requires AllPossible(s, ls) && Ticking(Run(s, ls))
    ensures AllPossible(s, more) && |more| == |ls| + n
    decreases n
  {
    if n == 0 {
      more := ls;
    } else {
      StepOfRun(s, ls, Tick(Waiting));
      more := TickOn(s, ls + [Tick(Waiting)], n - 1);
    }
  }

  ghost predicate Bounded(s: State, n: nat) {
    forall ls: seq<Label> | AllPossible(s, ls) :: |ls| <= n
  }

  /** Once reading is over, the runs from a state are bounded if and only if the handler has left its loop. */
  lemma {:induction false} BoundedExactly(s: State)
    requires Good(s) && !s.reading
    ensures (exists n: nat :: Bounded(s, n)) <==> !Commanding(s)
  {
    if Commanding(s) {
      forall n: nat ensures !Bounded(s, n) {
        var ls := ToTicking(s);
        var more := TickOn(s, ls, n + 1);
      }
    } else {
      forall ls: seq<Label> | AllPossible(s, ls) ensures |ls| <= Left(s) {
        TeardownIsBounded(s, ls);
      }
      assert Bounded(s, Left(s));
    }
  }
}
