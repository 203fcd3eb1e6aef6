/**
  The pacing of the video thread: when the next capture is due, and how often captures
  happen over whole runs of its loop.  Times are nanoseconds of one monotone clock.
*/
module Pacing {
  import opened Prelude

  const U32_MAX := 0xffff_ffff

  /** `last`: the slot of the last capture.  `period`: the frame duration. */
  datatype Pace = Pace(last: nat, period: nat, paused: bool)

  /** Why the wait ended: no command came in time, or a command did. */
  datatype Reason = Timeout | Start(period: nat) | Pause | Resume | OtherCommand

  /** One round of the loop: the clock at its top, and when the wait (with a start, its set-up) ended. */
  datatype Wake = Wake(top: nat, at: nat, reason: Reason)

  // -------------------------------------------------------------------------
  // The next slot
  // -------------------------------------------------------------------------

  /** `elapsed / period` as a 32-bit number; a float division by zero is infinite, or no number for 0/0. */
  function Passed(elapsed: nat, period: nat): nat {
    if period == 0 then (if elapsed == 0 then 0 else U32_MAX) else Min(elapsed / period, U32_MAX)
  }

  /** The slot after now; the 32-bit increment wraps. */
  function NextFrame(p: Pace, now: nat): nat {
    p.last + ((Passed(Max(0, now - p.last), p.period) + 1) % (U32_MAX + 1)) * p.period
  }

  /** The clock is short of the point where the count of passed frames overflows. */
  predicate InReach(p: Pace, now: nat) {
    now < p.last + U32_MAX * p.period
  }

  lemma {:induction false} Division(n: nat, d: nat)
    requires d > 0
    ensures n / d * d <= n < (n / d + 1) * d
  {
  }

  lemma {:induction false} PassedInReach(p: Pace, now: nat)
    requires p.last <= now && p.period > 0
    ensures InReach(p, now) <==> Passed(now - p.last, p.period) < U32_MAX
  {
    var e, q := now - p.last, (now - p.last) / p.period;
    Division(e, p.period);
    if q < U32_MAX {
      assert (q + 1) * p.period <= U32_MAX * p.period;
    } else {
      assert q * p.period >= U32_MAX * p.period;
    }
  }

  /** The slot is ahead of the clock, by one period at most, exactly when the clock is in reach. */
  lemma {:induction false} NextFrameIsAhead(p: Pace, now: nat)
    requires p.last <= now
    ensures now < NextFrame(p, now) <= now + p.period <==> InReach(p, now)
  {
    if p.period > 0 {
      PassedInReach(p, now);
      Division(now - p.last, p.period);
      if InReach(p, now) {
        var n := Passed(now - p.last, p.period) + 1;
        assert n % (U32_MAX + 1) == n;
      } else {
        assert NextFrame(p, now) == p.last;
      }
    }
  }

  // -------------------------------------------------------------------------
  // The loop
  // -------------------------------------------------------------------------

  /** A capture attempt: its slot, `index` periods after the last start, and when it began. */
  datatype Attempt = Attempt(index: nat, at: nat)

  /** `begun` and `attempts`: the last start, and the attempts since. */
  datatype Progress = Progress(pace: Pace, begun: nat, index: nat, attempts: seq<Attempt>, clock: nat)

  function Begin(now: nat, period: nat): Progress {
    Progress(Pace(now, period, false), now, 0, [], now)
  }

  /** What the clock and the channel allow: time does not go back, a wait is not cut short, and not
      ended by time at all while paused. */
  predicate Allowed(s: Progress, w: Wake) {
    && s.clock <= w.top <= w.at
    && (w.reason == Timeout ==> !s.pace.paused && w.at >= NextFrame(s.pace, w.top))
  }

  function Step(s: Progress, w: Wake): Progress {
    match w.reason
    case Timeout =>
      var n := s.index + Passed(Max(0, w.top - s.pace.last), s.pace.period) + 1;
      s.(pace := s.pace.(last := NextFrame(s.pace, w.top)), index := n,
         attempts := s.attempts + [Attempt(n, w.at)], clock := w.at)
    case Start(period) =>
      Progress(Pace(w.at, period, s.pace.paused), w.at, 0, [], w.at)
    case Pause => s.(pace := s.pace.(paused := true), clock := w.at)
    case Resume => s.(pace := s.pace.(paused := false), clock := w.at)
    case OtherCommand => s.(clock := w.at)
  }

  function Run(s: Progress, ws: seq<Wake>): Progress {
    if ws == [] then s else Step(Run(s, ws[..|ws| - 1]), ws[|ws| - 1])
  }

  /** Every round is allowed, with the clock in reach at its top. */
  predicate AllowedRun(s: Progress, ws: seq<Wake>) {
    ws == [] ||
      (var r := Run(s, ws[..|ws| - 1]); var w := ws[|ws| - 1];
       AllowedRun(s, ws[..|ws| - 1]) && Allowed(r, w) && InReach(r.pace, w.top))
  }

  /** The loop of the video thread, as far as it paces: the attempts of the epoch it is in. */
  method VideoLoop(now: nat, period: nat, ws: seq<Wake>) returns (attempts: seq<Attempt>)
    ensures attempts == Run(Begin(now, period), ws).attempts
  {
    ghost var start := Begin(now, period);
    var lastFrame: nat, frameDuration: nat, paused := now, period, false;
    var index: nat := 0;
    attempts := [];
    for k := 0 to |ws|
      invariant var s := Run(start, ws[..k]);
        s.pace == Pace(lastFrame, frameDuration, paused) && s.index == index && s.attempts == attempts
    {
      assert ws[..k + 1][..k] == ws[..k];
      var passed := Passed(Max(0, ws[k].top - lastFrame), frameDuration);
      var nextFrame := NextFrame(Pace(lastFrame, frameDuration, paused), ws[k].top);
      match ws[k].reason {
        case Timeout =>
          lastFrame := nextFrame;
          index := index + passed + 1;
          attempts := attempts + [Attempt(index, ws[k].at)];
        case Start(p) =>
          lastFrame, frameDuration, index, attempts := ws[k].at, p, 0, [];
        case Pause => paused := true;
        case Resume => paused := false;
        case OtherCommand =>
      }
    }
    assert ws[..|ws|] == ws;
  }

  // -------------------------------------------------------------------------
  // What every run keeps
  // -------------------------------------------------------------------------

  /** The slot of an attempt, on the grid of the last start. */
  function Slot(s: Progress, index: nat): nat {
    s.begun + index * s.pace.period
  }

  /** Attempt `k` is no earlier than its slot, and all before it were over when its slot was chosen. */
  predicate Paced(s: Progress, k: nat)
    requires k < |s.attempts|
  {
    var a := s.attempts[k];
    && a.index >= k + 1
    && Slot(s, a.index) <= a.at
    && (k > 0 ==> s.attempts[k - 1].index < a.index && s.attempts[k - 1].at < Slot(s, a.index))
  }

  predicate OnGrid(s: Progress) {
    && s.pace.last == Slot(s, s.index)
    && s.pace.last <= s.clock
    && (if s.attempts == [] then s.index == 0
        else s.attempts[|s.attempts| - 1].index == s.index && s.attempts[|s.attempts| - 1].at <= s.clock)
    && forall k: nat | k < |s.attempts| :: Paced(s, k)
  }

  lemma {:induction false} NewSlot(s: Progress, top: nat)
    requires OnGrid(s) && s.clock <= top && InReach(s.pace, top)
    ensures var n := s.index + Passed(top - s.pace.last, s.pace.period) + 1;
      NextFrame(s.pace, top) == Slot(s, n) && n > s.index && top < Slot(s, n)
  {
    NextFrameIsAhead(s.pace, top);
    PassedInReach(s.pace, top);
    var m := Passed(top - s.pace.last, s.pace.period) + 1;
    assert m % (U32_MAX + 1) == m;
    assert s.index * s.pace.period + m * s.pace.period == (s.index + m) * s.pace.period;
  }

  lemma {:induction false} TimeoutKeepsGrid(s: Progress, w: Wake)
    requires OnGrid(s) && Allowed(s, w) && InReach(s.pace, w.top) && w.reason == Timeout
    ensures OnGrid(Step(s, w))
  {
    NewSlot(s, w.top);
    var t := Step(s, w);
    forall k: nat | k < |t.attempts| ensures Paced(t, k) {
      if k < |s.attempts| {
        assert Paced(s, k);
      } else if k > 0 {
        assert Paced(s, k - 1);
      }
    }
  }

  lemma {:induction false} StepKeepsGrid(s: Progress, w: Wake)
    requires OnGrid(s) && Allowed(s, w) && InReach(s.pace, w.top)
    ensures OnGrid(Step(s, w))
  {
    if w.reason == Timeout {
      TimeoutKeepsGrid(s, w);
    } else if !w.reason.Start? {
      forall k: nat | k < |s.attempts| ensures Paced(Step(s, w), k) {
        assert Paced(s, k);
      }
    }
  }

  /** Every slot of an epoch is a whole number of periods after its start, and slots only go up. */
  lemma {:induction false} SlotsStayOnGrid(now: nat, period: nat, ws: seq<Wake>)
    requires AllowedRun(Begin(now, period), ws)
    ensures OnGrid(Run(Begin(now, period), ws))
  {
    if ws != [] {
      SlotsStayOnGrid(now, period, ws[..|ws| - 1]);
      StepKeepsGrid(Run(Begin(now, period), ws[..|ws| - 1]), ws[|ws| - 1]);
    }
  }

  lemma {:induction false} IndexGap(s: Progress, i: nat, j: nat)
    requires OnGrid(s) && i < j < |s.attempts|
    ensures s.attempts[i].at < s.begun + (s.attempts[j].index - (j - i - 1)) * s.pace.period
    ensures s.attempts[j].index >= s.attempts[i].index + (j - i)
    decreases j
  {
    assert Paced(s, j);
    if j > i + 1 {
      IndexGap(s, i, j - 1);
      var a, b := s.attempts[j - 1].index - (j - 1 - i - 1), s.attempts[j].index - (j - i - 1);
      ProductGap(b, a, 0, s.pace.period);
    }
  }

  /** The rate over every run: n attempts since a start take n periods at least. */
  lemma {:induction false} AttemptsTakePeriods(now: nat, period: nat, ws: seq<Wake>, j: nat)
    requires AllowedRun(Begin(now, period), ws)
    requires j < |Run(Begin(now, period), ws).attempts|
    ensures var s := Run(Begin(now, period), ws); s.attempts[j].at >= s.begun + (j + 1) * s.pace.period
  {
    SlotsStayOnGrid(now, period, ws);
    var s := Run(Begin(now, period), ws);
    assert Paced(s, j);
    ProductGap(s.attempts[j].index, j + 1, 0, s.pace.period);
  }

  /**
    Nor do attempts bunch up later: any n in a row take more than n - 2 periods, however
    late the thread comes back to its loop.
  */
  lemma {:induction false} AttemptsAreSpaced(now: nat, period: nat, ws: seq<Wake>, i: nat, j: nat)
    requires AllowedRun(Begin(now, period), ws)
    requires i < j < |Run(Begin(now, period), ws).attempts|
    ensures var s := Run(Begin(now, period), ws);
      s.attempts[j].at > s.attempts[i].at + (j - i - 1) * s.pace.period
  {
    SlotsStayOnGrid(now, period, ws);
    var s := Run(Begin(now, period), ws);
    IndexGap(s, i, j);
    assert Paced(s, j);
    ProductGap(s.attempts[j].index, s.attempts[j].index, j - i - 1, s.pace.period);
  }

  lemma {:induction false} ProductGap(x: int, y: int, d: int, p: nat)
    requires x >= y
    ensures x * p >= y * p
    ensures (x - d) * p == x * p - d * p
  {
  }

  /** The last round that ended with a pause or a resume was a pause. */
  predicate PausedLast(ws: seq<Wake>) {
    ws != [] &&
      var w := ws[|ws| - 1];
      w.reason.Pause? || (!w.reason.Resume? && PausedLast(ws[..|ws| - 1]))
  }

  /** The last round that ended with a start. */
  function LastStart(ws: seq<Wake>): Option<Wake> {
    if ws == [] then None
    else if ws[|ws| - 1].reason.Start? then Some(ws[|ws| - 1])
    else LastStart(ws[..|ws| - 1])
  }

  /**
    Over every run: captures are paused if and only if the last pause or resume was a pause, and
    the epoch began with the last start and has the period that it named.
  */
  lemma {:induction false} CommandsRule(now: nat, period: nat, ws: seq<Wake>)
    ensures var s, start := Run(Begin(now, period), ws), LastStart(ws);
      && (s.pace.paused <==> PausedLast(ws))
      && s.begun == (if start.Some? then start.value.at else now)
      && (start.None? ==> s.pace.period == period)
      && (start.Some? ==> start.value.reason.Start? && s.pace.period == start.value.reason.period)
  {
    if ws != [] {
      CommandsRule(now, period, ws[..|ws| - 1]);
    }
  }

  /** From a pause until a resume nothing is captured: a start empties the list, nothing adds to it. */
  lemma {:induction false} NothingWhilePaused(s: Progress, ws: seq<Wake>)
    requires AllowedRun(s, ws) && s.pace.paused
    requires forall w | w in ws :: w.reason != Resume
    ensures Run(s, ws).pace.paused
    ensures Run(s, ws).attempts == s.attempts || Run(s, ws).attempts == []
    ensures forall w | w in ws :: w.reason != Timeout
  {
    if ws != [] {
      var rest := ws[..|ws| - 1];
      assert forall w | w in rest :: w in ws;
      NothingWhilePaused(s, rest);
      assert ws == rest + [ws[|ws| - 1]];
    }
  }
}
