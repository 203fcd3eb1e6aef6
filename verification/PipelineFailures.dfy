/** Failed captures: when the capture thread gives its recorder up. */
module PipelineFailures {
  import opened Prelude
  import opened Scaling
  import opened Pipeline

  const FAILED := Local(CaptureFailed)

  /** Captures failed since the last that succeeded. */
  function FailedInRow(ls: seq<Label>): nat {
    if ls == [] || IsCapture(ls[|ls| - 1]) then 0
    else FailedInRow(ls[..|ls| - 1]) + if ls[|ls| - 1] == FAILED then 1 else 0
  }

  /** A start made a recorder, and since then no failed capture was the thirtieth in a row, or later in the row. */
  predicate KeepsRecorder(ls: seq<Label>) {
    ls != [] &&
      var l := ls[|ls| - 1];
      if l.Local? && l.step.StartCapture? then l.step.started
      else KeepsRecorder(ls[..|ls| - 1]) && (l == FAILED ==> FailedInRow(ls) < 30)
  }

  lemma {:induction false} FailureStep(s: State, l: Label)
    requires Possible(s, l)
    ensures var c := Apply(s, l).cap;
      && c.failures == (if IsCapture(l) then 0 else s.cap.failures + if l == FAILED then 1 else 0)
      && c.recording ==
           (if l.Local? && l.step.StartCapture? then l.step.started
            else if l == FAILED then s.cap.failures + 1 < MAX_CAPTURE_FAILURES
            else s.cap.recording)
      && (l == FAILED ==> s.cap.recording)
  {
  }

  /** Over every run, the recorder is there if and only if it was made and no failure used its row up. */
  lemma {:induction false} RecorderKeptExactly(ls: seq<Label>)
    requires Run(ls).Some?
    ensures Run(ls).value.cap.failures == FailedInRow(ls)
    ensures Run(ls).value.cap.recording <==> KeepsRecorder(ls)
  {
    if ls != [] {
      var before, l := ls[..|ls| - 1], ls[|ls| - 1];
      RecorderKeptExactly(before);
      FailureStep(Run(before).value, l);
    }
  }

  // -------------------------------------------------------------------------
  // Starting again
  // -------------------------------------------------------------------------

  function Failing(n: nat): seq<Label> {
    if n == 0 then [] else Failing(n - 1) + [FAILED]
  }

  lemma {:induction false} OneMore(ls: seq<Label>, l: Label)
    requires Run(ls).Some? && Possible(Run(ls).value, l)
    ensures Run(ls + [l]) == Some(Apply(Run(ls).value, l))
  {
    assert (ls + [l])[..|ls|] == ls;
  }

  /** A capture just started, made and waiting. */
  predicate Started(ls: seq<Label>) {
    && ls != [] && ls[|ls| - 1].Local? && ls[|ls| - 1].step.StartCapture?
    && Run(ls).Some? && Run(ls).value.cap.recording && Run(ls).value.cap.pc.Waiting?
  }

  /**
    The row does not end with a start: a recorder that fails from the start on is kept over n + 1
    failures if and only if they and the failures before the start are less than thirty together.
  */
  lemma {:induction false} StartKeepsTheRow(ls: seq<Label>, n: nat)
    requires Started(ls)
    requires n == 0 || FailedInRow(ls) + n < 30
    ensures var all := ls + Failing(n);
      && Run(all).Some? && Run(all + [FAILED]).Some?
      && (Run(all + [FAILED]).value.cap.recording <==> FailedInRow(ls) + n + 1 < 30)
  {
    Fails(ls, n);
    OneMore(ls + Failing(n), FAILED);
  }

  lemma {:induction false} Fails(ls: seq<Label>, n: nat)
    requires Started(ls)
    requires n == 0 || FailedInRow(ls) + n < 30
    ensures var s := Run(ls + Failing(n));
      s.Some? && s.value.cap.recording && s.value.cap.pc.Waiting? && s.value.cap.failures == FailedInRow(ls) + n
  {
    if n == 0 {
      RecorderKeptExactly(ls);
      assert ls + [] == ls;
    } else {
      Fails(ls, n - 1);
      OneMore(ls + Failing(n - 1), FAILED);
      assert ls + Failing(n - 1) + [FAILED] == ls + Failing(n);
    }
  }

  /** A recorder given up after thirty failures, started again, and given up at its first failure. */
  lemma {:induction false} StartedAgainGivesUp() returns (ls: seq<Label>)
    ensures Started(ls) && Run(ls + [FAILED]).Some? && !Run(ls + [FAILED]).value.cap.recording
  {
    var start := Local(StartCapture(true, Size(1920, 1080)));
    OneMore([], start);
    var first := [] + [start];
    Fails(first, 29);
    OneMore(first + Failing(29), FAILED);
    var lost := first + Failing(29) + [FAILED];
    OneMore(lost, start);
    ls := lost + [start];
    RecorderKeptExactly(lost);
    RecorderKeptExactly(ls);
    StartKeepsTheRow(ls, 0);
    assert ls + Failing(0) == ls;
  }
}
