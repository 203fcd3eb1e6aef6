/**
  The writer task and what wakes it: the video queue's mutex, the one-permit
  `Notify`, the closing of the queue, and the control channel.  Frames are
  counted, not looked at: their order is the concern of the queue itself.
*/
module VideoWriter {
  import opened Prelude
  import VideoQueue

  const CONTROL_CAPACITY := 32

  /** The writer's registration with the `Notify`. */
  datatype Waiter = NoWaiter | Registered | Notified

  datatype Pc =
    | Draining        // about to lock and drain the queue
    | Sending(n: nat) // n frames left of a drained batch
    | Polling         // about to poll `notified`
    | PollingControl  // `notified` is pending, about to poll the control channel
    | Parked
    | Woken           // `notified` completed, about to check for closing
    | Handling        // sending one control message
    | Done

  datatype State = State(
    pc: Pc,
    queued: nat,
    pushing: bool,    // a push holds the mutex and has not notified yet
    permit: bool,
    waiter: Waiter,
    closed: bool,
    closeNotified: bool,
    control: nat,
    senders: bool)    // some sender of the control channel is alive

  const INIT := State(Draining, 0, false, false, NoWaiter, false, false, 0, true)

  datatype Label =
    | Push
    | PushNotify
    | Close
    | CloseNotify
    | SendControl
    | DropSenders
    | Drain
    | SendFrame(ok: bool)
    | PollNotified
    | PollControl
    | Wake
    | CheckClosed
    | SendMessage(ok: bool)

  predicate WriterStep(l: Label) {
    l.Drain? || l.SendFrame? || l.PollNotified? || l.PollControl? || l.Wake? || l.CheckClosed? || l.SendMessage?
  }

  predicate Enabled(s: State, l: Label) {
    match l
    case Push => !s.pushing
    case PushNotify => s.pushing
    case Close => !s.closed
    case CloseNotify => s.closed && !s.closeNotified
    case SendControl => s.senders && s.control < CONTROL_CAPACITY && !s.pc.Done?
    case DropSenders => s.senders
    case Drain => s.pc.Draining? && !s.pushing
    case SendFrame(_) => s.pc.Sending?
    case PollNotified => s.pc.Polling?
    case PollControl => s.pc.PollingControl?
    case Wake => s.pc.Parked? && (s.waiter.Notified? || s.control > 0 || !s.senders)
    case CheckClosed => s.pc.Woken? && (s.closed ==> !s.pushing)
    case SendMessage(_) => s.pc.Handling?
  }

  /** `notify_one`: to the registered waiter if there is one, else into the permit. */
  function NotifyOne(s: State): State {
    if s.waiter.Registered? then s.(waiter := Notified) else s.(permit := true)
  }

  /** Dropping a pending `notified` passes an undelivered notification on. */
  function DropFuture(s: State): State {
    s.(waiter := NoWaiter, permit := s.permit || s.waiter.Notified?)
  }

  function Apply(s: State, l: Label): State
    requires Enabled(s, l)
  {
    match l
    case Push => s.(queued := Min(s.queued + 1, VideoQueue.VIDEO_QUEUE_CAPACITY), pushing := true)
    case PushNotify => NotifyOne(s).(pushing := false)
    case Close => s.(closed := true)
    case CloseNotify => NotifyOne(s).(closeNotified := true)
    case SendControl => s.(control := s.control + 1)
    case DropSenders => s.(senders := false)
    case Drain => if s.queued > 0 then s.(pc := Sending(s.queued), queued := 0) else s.(pc := Polling)
    case SendFrame(ok) => s.(pc := if !ok then Done else if s.pc.n > 1 then Sending(s.pc.n - 1) else Draining)
    case PollNotified =>
      if s.waiter.Notified? then s.(waiter := NoWaiter, pc := Woken)
      else if s.waiter.NoWaiter? && s.permit then s.(permit := false, pc := Woken)
      else s.(waiter := Registered, pc := PollingControl)
    case PollControl =>
      if s.control > 0 then DropFuture(s).(control := s.control - 1, pc := Handling)
      else if !s.senders then DropFuture(s).(pc := Done)
      else s.(pc := Parked)
    case Wake => s.(pc := Polling)
    case CheckClosed => s.(pc := if s.closed && s.queued == 0 then Done else Draining)
    case SendMessage(ok) => s.(pc := if ok then Draining else Done)
  }

  /** The state after the steps, from any state, if each was enabled in turn. */
  function After(s: State, ls: seq<Label>): Option<State> {
    if ls == [] then Some(s)
    else
      var before := After(s, ls[..|ls| - 1]);
      if before.Some? && Enabled(before.value, ls[|ls| - 1])
      then Some(Apply(before.value, ls[|ls| - 1]))
      else None
  }

  // -------------------------------------------------------------------------
  // No lost wake-up
  // -------------------------------------------------------------------------

  /** Between finding the queue empty and the end of the wait. */
  predicate Waiting(pc: Pc) {
    pc.Polling? || pc.PollingControl? || pc.Parked?
  }

  function Tokens(s: State): nat {
    (if s.permit then 1 else 0) + if s.waiter.Notified? then 1 else 0
  }

  predicate Inv(s: State) {
    && s.queued <= VideoQueue.VIDEO_QUEUE_CAPACITY
    && (s.pc.Sending? ==> 1 <= s.pc.n <= VideoQueue.VIDEO_QUEUE_CAPACITY)
    && (s.pushing ==> s.queued > 0)
    && (s.waiter.Registered? ==> !s.permit)
    && (!Waiting(s.pc) ==> s.waiter.NoWaiter?)
    && (s.pc.PollingControl? || s.pc.Parked? ==> !s.waiter.NoWaiter?)
    && (Waiting(s.pc) && s.queued > 0 && !s.pushing ==> Tokens(s) > 0)
    && (s.closeNotified ==> s.closed)
  }

  lemma {:induction false} WriterKeepsInv(s: State, l: Label)
    requires Inv(s) && Enabled(s, l) && WriterStep(l)
    ensures Inv(Apply(s, l))
  {
  }

  lemma {:induction false} InvStep(s: State, l: Label)
    requires Inv(s) && Enabled(s, l)
    ensures Inv(Apply(s, l))
  {
    if WriterStep(l) { WriterKeepsInv(s, l); }
  }

  lemma {:induction false} InvHolds(ls: seq<Label>)
    requires After(INIT, ls).Some?
    ensures Inv(After(INIT, ls).value)
  {
    if ls != [] {
      InvHolds(ls[..|ls| - 1]);
      InvStep(After(INIT, ls[..|ls| - 1]).value, ls[|ls| - 1]);
    }
  }

  /** In no reachable state is the writer parked over a nonempty queue without a notification delivered to it. */
  lemma {:induction false} NoLostWakeup(ls: seq<Label>)
    requires After(INIT, ls).Some?
    ensures var s := After(INIT, ls).value;
      s.pc.Parked? && s.queued > 0 && !s.pushing ==> s.waiter.Notified? && Enabled(s, Wake)
  {
    InvHolds(ls);
  }

  /** An upper bound on the writer's own steps before it drains again. */
  function ToDrain(s: State): nat {
    match s.pc
    case Draining => 0
    case Sending(n) => n
    case Woken => 1
    case Handling => 1
    case Polling => 2
    case Parked => 3
    case PollingControl => 4
    case Done => 0
  }

  /** The writer polls between a push's queueing and its notification: that is delivered to it next. */
  predicate PollsEarly(s: State, l: Label) {
    l.PollNotified? && s.pushing && !s.permit && !s.waiter.Notified?
  }

  /**
    While frames are queued the writer always has a step once a push in progress
    has let go of the mutex; each of its steps drains the queue, ends the writer
    or brings the next drain nearer, save one poll a push that is ahead of the push's
    notification and registers for it; and no step of anyone else moves it away.
  */
  lemma {:induction false} QueuedFramesAreDrained(s: State, l: Label)
    requires Inv(s) && s.queued > 0 && !s.pc.Done?
    requires Enabled(s, l)
    ensures !s.pushing ==> exists w :: WriterStep(w) && Enabled(s, w)
    ensures var t := Apply(s, l);
      && (WriterStep(l) && !PollsEarly(s, l) ==> l.Drain? || t.pc.Done? || ToDrain(t) < ToDrain(s))
      && (PollsEarly(s, l) ==> t.pushing && t.waiter.Registered? && Apply(t, PushNotify).waiter.Notified?)
      && (!WriterStep(l) ==> t.pc == s.pc && t.queued > 0)
      && ToDrain(s) <= 4
  {
    if !s.pushing {
      match s.pc
      case Draining => assert Enabled(s, Drain);
      case Sending(_) => assert Enabled(s, SendFrame(true));
      case Polling => assert Enabled(s, PollNotified);
      case PollingControl => assert Enabled(s, PollControl);
      case Parked => assert Enabled(s, Wake);
      case Woken => assert Enabled(s, CheckClosed);
      case Handling => assert Enabled(s, SendMessage(true));
    }
  }

  // -------------------------------------------------------------------------
  // Closing
  // -------------------------------------------------------------------------

  /** Nothing is pushed any more and the control channel keeps its senders. */
  predicate Quiet(ls: seq<Label>) {
    forall i :: 0 <= i < |ls| ==> !ls[i].Push? && !ls[i].DropSenders?
  }

  /** The writer is closed but waits for a message that may never come. */
  predicate Stranded(s: State) {
    s.closeNotified && s.pc.Parked? && s.queued == 0 && Tokens(s) == 0 && s.control == 0 && s.senders
  }

  /** The next notification the writer takes will find frames in the queue. */
  predicate TakesEarly(s: State) {
    s.queued > 0 && Waiting(s.pc) && !(s.pc.PollingControl? && s.control > 0)
  }

  /** The one way a close goes unheard: its notification is the only one, and it is taken while frames are queued. */
  predicate SpentOnFrames(s: State) {
    TakesEarly(s) && Tokens(s) == 1
  }

  predicate CloseHeard(s: State) {
    && s.closeNotified && !s.pushing
    && (s.pc.Done?
        || (if TakesEarly(s) then Tokens(s) == 2
            else if s.queued > 0 then s.permit || s.waiter.Notified?
            else Tokens(s) > 0 || s.pc.Woken?))
  }

  lemma {:induction false} HeardStep(s: State, l: Label)
    requires Inv(s) && CloseHeard(s) && Enabled(s, l) && !l.Push?
    ensures Inv(Apply(s, l)) && CloseHeard(Apply(s, l))
  {
  }

  lemma {:induction false} Go(s: State, ls: seq<Label>, l: Label) returns (next: seq<Label>)
    requires Quiet(ls) && After(s, ls).Some? && Enabled(After(s, ls).value, l) && !l.Push? && !l.DropSenders?
    ensures Quiet(next) && After(s, next) == Some(Apply(After(s, ls).value, l))
  {
    next := ls + [l];
    assert next[..|ls|] == ls;
  }

  /** Sends the rest of a batch. */
  lemma {:induction false} SendBatch(s: State, ls: seq<Label>) returns (next: seq<Label>)
    requires Quiet(ls) && After(s, ls).Some? && After(s, ls).value.pc.Sending? && After(s, ls).value.pc.n >= 1
    ensures Quiet(next) && After(s, next) == Some(After(s, ls).value.(pc := Draining))
    decreases After(s, ls).value.pc.n
  {
    next := Go(s, ls, SendFrame(true));
    if After(s, next).value.pc.Sending? {
      next := SendBatch(s, next);
    }
  }

  /** With nothing queued and no notification left, the writer serves the control messages and parks. */
  lemma {:induction false} ParkUnnotified(s: State, ls: seq<Label>) returns (next: seq<Label>)
    requires Quiet(ls) && After(s, ls).Some?
    requires var t := After(s, ls).value;
      t.pc.Draining? && t.queued == 0 && !t.pushing && !t.permit && t.waiter.NoWaiter? && t.senders && t.closeNotified
    ensures Quiet(next) && After(s, next).Some? && Stranded(After(s, next).value)
    decreases After(s, ls).value.control
  {
    next := Go(s, ls, Drain);
    next := Go(s, next, PollNotified);
    next := Go(s, next, PollControl);
    if After(s, next).value.pc.Handling? {
      next := Go(s, next, SendMessage(true));
      next := ParkUnnotified(s, next);
    }
  }

  /** Takes the only notification while frames are queued, then sends the frames. */
  lemma {:induction false} SpendNotification(s: State, start: seq<Label>) returns (ls: seq<Label>)
    requires Quiet(start) && After(s, start).Some?
    requires var t := After(s, start).value; Inv(t) && SpentOnFrames(t) && !t.pushing && t.closeNotified && t.senders
    ensures Quiet(ls) && After(s, ls).Some? && Stranded(After(s, ls).value)
  {
    ls := start;
    if After(s, ls).value.pc.PollingControl? {
      ls := Go(s, ls, PollControl);
    }
    if !After(s, ls).value.pc.Polling? {
      ls := Go(s, ls, Wake);
    }
    ls := Go(s, ls, PollNotified);
    ls := Go(s, ls, CheckClosed);
    ls := Go(s, ls, Drain);
    ls := SendBatch(s, ls);
    ls := ParkUnnotified(s, ls);
  }

  /**
    A close notified while a push holds the mutex: the push's own notification is still to come,
    and is not lost unless it finds the permit there already, with the writer about to take it.
  */
  predicate HeardWithPush(s: State) {
    && s.closeNotified && s.pushing
    && (!Waiting(s.pc) || (s.pc.PollingControl? && s.control > 0) || s.waiter.Notified?)
  }

  predicate Heard(s: State) {
    CloseHeard(s) || HeardWithPush(s)
  }

  lemma {:induction false} HeardWithPushStep(s: State, l: Label)
    requires Inv(s) && HeardWithPush(s) && Enabled(s, l) && !l.Push?
    ensures Inv(Apply(s, l)) && Heard(Apply(s, l))
  {
  }

  lemma {:induction false} StaysHeard(s: State, ls: seq<Label>)
    requires Inv(s) && Heard(s) && Quiet(ls) && After(s, ls).Some?
    ensures Inv(After(s, ls).value) && Heard(After(s, ls).value)
  {
    if ls != [] {
      var before, l := ls[..|ls| - 1], ls[|ls| - 1];
      StaysHeard(s, before);
      var t := After(s, before).value;
      if CloseHeard(t) {
        HeardStep(t, l);
      } else {
        HeardWithPushStep(t, l);
      }
    }
  }

  lemma {:induction false} SendersStayGone(s: State, ls: seq<Label>)
    requires !s.senders && After(s, ls).Some?
    ensures !After(s, ls).value.senders
  {
    if ls != [] {
      SendersStayGone(s, ls[..|ls| - 1]);
    }
  }

  /** The close's notification is spent on queued frames, and no push in progress brings another. */
  predicate Unheard(s: State) {
    s.senders && SpentOnFrames(s) && (s.pushing ==> s.permit)
  }

  /**
    In every state in which the close notifies: it releases the writer by itself, whatever
    happens next short of more pushes, if and only if its notification is not spent on queued
    frames, or a push in progress still brings one: otherwise some continuation leaves the
    writer parked until every sender of the control channel is gone.
  */
  lemma {:induction false} CloseReleasesWriter(before: State)
    requires Inv(before) && Enabled(before, CloseNotify)
    ensures var s := Apply(before, CloseNotify);
      (exists ls :: Quiet(ls) && After(s, ls).Some? && Stranded(After(s, ls).value)) <==> Unheard(s)
  {
    InvStep(before, CloseNotify);
    var s := Apply(before, CloseNotify);
    if Unheard(s) {
      var start: seq<Label> := [];
      if s.pushing {
        start := Go(s, start, PushNotify);
        InvStep(s, PushNotify);
      }
      var ls := SpendNotification(s, start);
    } else {
      forall ls | Quiet(ls) && After(s, ls).Some? ensures !Stranded(After(s, ls).value) {
        if s.senders {
          assert Heard(s);
          StaysHeard(s, ls);
        } else {
          SendersStayGone(s, ls);
        }
      }
    }
  }

  /** And it happens: a push right after an empty drain, then a close. */
  lemma {:induction false} CloseCanGoUnheard() returns (ls: seq<Label>)
    ensures After(INIT, ls).Some? && Enabled(After(INIT, ls).value, CloseNotify)
    ensures Unheard(Apply(After(INIT, ls).value, CloseNotify))
    ensures exists more :: Quiet(more) && After(Apply(After(INIT, ls).value, CloseNotify), more).Some?
                           && Stranded(After(Apply(After(INIT, ls).value, CloseNotify), more).value)
  {
    ls := OneMore([], Drain);
    ls := OneMore(ls, Push);
    ls := OneMore(ls, PushNotify);
    ls := OneMore(ls, Close);
    var s := After(INIT, ls).value;
    InvHolds(ls);
    CloseReleasesWriter(s);
  }

  lemma {:induction false} OneMore(ls: seq<Label>, l: Label) returns (next: seq<Label>)
    requires After(INIT, ls).Some? && Enabled(After(INIT, ls).value, l)
    ensures After(INIT, next) == Some(Apply(After(INIT, ls).value, l))
  {
    next := ls + [l];
    assert next[..|ls|] == ls;
  }

  /** And a push in progress does save a close that finds the writer parked over its frame. */
  lemma {:induction false} PushSavesClose() returns (ls: seq<Label>)
    ensures After(INIT, ls).Some? && Enabled(After(INIT, ls).value, CloseNotify)
    ensures var s := Apply(After(INIT, ls).value, CloseNotify); s.pushing && SpentOnFrames(s) && !Unheard(s)
  {
    ls := OneMore([], Drain);
    ls := OneMore(ls, PollNotified);
    ls := OneMore(ls, PollControl);
    ls := OneMore(ls, Push);
    ls := OneMore(ls, Close);
  }
}
