/**
  The adaptive quality controller of the video thread: client buffer reports and the
  local encode time move the quantiser (QP) of the encoder.  Times are real numbers
  of seconds (round trips: milliseconds).
*/
module Quality {
  import opened Prelude

  const QP_MIN := 18
  const QP_MAX := 45
  const QP_DEFAULT := 23

  /** The values the controller holds between calls. */
  datatype Controller = Controller(qp: int, encodeAvg: real, buffer: Option<real>, rttAvg: Option<real>)

  const FRESH := Controller(QP_DEFAULT, 0.0, None, None)

  function Clamp(q: int): int {
    if q < QP_MIN then QP_MIN else if q > QP_MAX then QP_MAX else q
  }

  function Average(sample: real, avg: real): real {
    0.3 * sample + 0.7 * avg
  }

  // -------------------------------------------------------------------------
  // The decision, said without the deltas
  // -------------------------------------------------------------------------

  /** Seconds of buffered video that count as a warning, given the round trip. */
  function Warning(rttAvg: Option<real>): real {
    if rttAvg.Some? && rttAvg.value > 150.0 then 1.0
    else if rttAvg.Some? && rttAvg.value > 80.0 then 1.5
    else 2.0
  }

  predicate Swamped(c: Controller) {
    c.buffer.Some? && c.buffer.value > Warning(c.rttAvg) + 1.0
  }

  predicate Backlogged(c: Controller) {
    c.buffer.Some? && c.buffer.value > Warning(c.rttAvg)
  }

  predicate Drained(c: Controller) {
    c.buffer.Some? && c.buffer.value < 0.5 && c.qp > QP_MIN
  }

  /** The report says something, so the encode time is not asked. */
  predicate ReportDecides(c: Controller) {
    Backlogged(c) || Drained(c)
  }

  predicate Saturated(c: Controller, budget: real) {
    0.0 < budget < 1.0 && c.encodeAvg > 0.8 * budget
  }

  predicate Idle(c: Controller, budget: real) {
    0.0 < budget < 1.0 && c.encodeAvg < 0.4 * budget
  }

  predicate Raises(c: Controller, budget: real) {
    Backlogged(c) || (!ReportDecides(c) && Saturated(c, budget))
  }

  predicate Lowers(c: Controller, budget: real) {
    Drained(c) || (!ReportDecides(c) && Idle(c, budget))
  }

  function NextQp(c: Controller, budget: real): int {
    if Raises(c, budget) then Clamp(c.qp + if Swamped(c) then 2 else 1)
    else if Lowers(c, budget) then Clamp(c.qp - 1)
    else c.qp
  }

  function Decided(c: Controller, budget: real): Controller {
    c.(qp := NextQp(c, budget), buffer := None)
  }

  // -------------------------------------------------------------------------
  // The controller
  // -------------------------------------------------------------------------

  class QualityController {
    var currentQp: int
    var encodeTimeAvg: real
    var bufferHealthSecs: Option<real>
    var rttMsAvg: Option<real>

    function View(): Controller
      reads this
    {
      Controller(currentQp, encodeTimeAvg, bufferHealthSecs, rttMsAvg)
    }

    constructor ()
      ensures View() == FRESH
    {
      currentQp, encodeTimeAvg, bufferHealthSecs, rttMsAvg := QP_DEFAULT, 0.0, None, None;
    }

    method Reset()
      modifies this
      ensures View() == FRESH
    {
      currentQp := QP_DEFAULT;
      encodeTimeAvg := 0.0;
      bufferHealthSecs := None;
      rttMsAvg := None;
    }

    method SetBufferHealth(secs: real)
      modifies this
      ensures View() == old(View()).(buffer := Some(secs))
    {
      bufferHealthSecs := Some(secs);
    }

    method SetRttMs(rttMs: nat)
      modifies this
      ensures View() == Apply(old(View()), Rtt(rttMs))
    {
      var sample := rttMs as real;
      match rttMsAvg {
        case Some(avg) => rttMsAvg := Some(0.3 * sample + 0.7 * avg);
        case None => rttMsAvg := Some(sample);
      }
    }

    method RecordEncodeTime(elapsedSecs: real)
      modifies this
      ensures View() == Apply(old(View()), Encode(elapsedSecs))
    {
      encodeTimeAvg := 0.3 * elapsedSecs + 0.7 * encodeTimeAvg;
    }

    method BufferDelta(warn: real, severe: real) returns (delta: Option<int>)
      requires warn == Warning(rttMsAvg) && severe == warn + 1.0
      ensures delta == if bufferHealthSecs == None then None else Some(
                         if Swamped(View()) then 2
                         else if Backlogged(View()) then 1
                         else if Drained(View()) then -1
                         else 0)
    {
      match bufferHealthSecs {
        case None => return None;
        case Some(b) =>
          if b > severe {
            return Some(2);
          } else if b > warn {
            return Some(1);
          } else if b < 0.5 && currentQp > QP_MIN {
            return Some(-1);
          }
          return Some(0);
      }
    }

    method PipelineDelta(budget: real) returns (delta: Option<int>)
      ensures delta == if !(0.0 < budget < 1.0) then None else Some(
                         if Saturated(View(), budget) && currentQp < QP_MAX then 1
                         else if Idle(View(), budget) && currentQp > QP_MIN then -1
                         else 0)
    {
      if !(budget > 0.0 && budget < 1.0) {
        return None;
      }
      var ratio := encodeTimeAvg / budget;
      RatioAgainst(encodeTimeAvg, budget, 0.8);
      RatioAgainst(encodeTimeAvg, budget, 0.4);
      if ratio > 0.8 && currentQp < QP_MAX {
        return Some(1);
      } else if ratio < 0.4 && currentQp > QP_MIN {
        return Some(-1);
      }
      return Some(0);
    }

    method Decide(budget: real) returns (r: Option<int>)
      requires QP_MIN <= currentQp <= QP_MAX
      modifies this
      ensures View() == Decided(old(View()), budget)
      ensures r == if currentQp != old(currentQp) then Some(currentQp) else None
    {
      var tightening := 0.0;
      if rttMsAvg.Some? {
        if rttMsAvg.value > 150.0 {
          tightening := 1.0;
        } else if rttMsAvg.value > 80.0 {
          tightening := 0.5;
        }
      }
      var warn := if 2.0 - tightening > 0.5 then 2.0 - tightening else 0.5;
      var severe := if 3.0 - tightening > warn + 0.5 then 3.0 - tightening else warn + 0.5;

      var bufferDelta := BufferDelta(warn, severe);
      var pipelineDelta := PipelineDelta(budget);
      var delta := 0;
      match (bufferDelta, pipelineDelta) {
        case (Some(bd), Some(pd)) => delta := if bd != 0 then bd else pd;
        case (Some(bd), None) => delta := bd;
        case (None, Some(pd)) => delta := pd;
        case (None, None) => delta := 0;
      }
      bufferHealthSecs := None;
      if delta == 0 {
        return None;
      }
      var newQp := Clamp(currentQp + delta);
      if newQp != currentQp {
        currentQp := newQp;
        return Some(newQp);
      }
      return None;
    }
  }

  lemma {:induction false} RatioAgainst(avg: real, budget: real, bound: real)
    requires budget > 0.0
    ensures avg / budget > bound <==> avg > bound * budget
    ensures avg / budget < bound <==> avg < bound * budget
  {
    var ratio := avg / budget;
    assert avg == ratio * budget;
    if ratio > bound {
      assert (ratio - bound) * budget > 0.0;
    } else if ratio < bound {
      assert (bound - ratio) * budget > 0.0;
    }
  }

  // -------------------------------------------------------------------------
  // Runs
  // -------------------------------------------------------------------------

  datatype Op = Reset | Report(secs: real) | Rtt(ms: nat) | Encode(secs: real) | Decision(budget: real)

  function Apply(c: Controller, op: Op): Controller {
    match op
    case Reset => FRESH
    case Report(secs) => c.(buffer := Some(secs))
    case Rtt(ms) =>
      c.(rttAvg := Some(if c.rttAvg.Some? then Average(ms as real, c.rttAvg.value) else ms as real))
    case Encode(secs) => c.(encodeAvg := Average(secs, c.encodeAvg))
    case Decision(budget) => Decided(c, budget)
  }

  function Run(c: Controller, ops: seq<Op>): Controller {
    if ops == [] then c else Apply(Run(c, ops[..|ops| - 1]), ops[|ops| - 1])
  }

  /** Over every run the QP stays in its range. */
  lemma {:induction false} QpStaysInRange(ops: seq<Op>)
    ensures QP_MIN <= Run(FRESH, ops).qp <= QP_MAX
  {
    if ops != [] {
      QpStaysInRange(ops[..|ops| - 1]);
    }
  }

  /** The round-trip readings since the last reset. */
  function Readings(ops: seq<Op>): seq<nat> {
    if ops == [] then []
    else
      var last := ops[|ops| - 1];
      if last.Reset? then []
      else if last.Rtt? then Readings(ops[..|ops| - 1]) + [last.ms]
      else Readings(ops[..|ops| - 1])
  }

  /** The averaged round trip lies between any bounds of the readings it averages. */
  lemma {:induction false} RttAverageIsBetween(ops: seq<Op>, lo: nat, hi: nat)
    requires forall ms | ms in Readings(ops) :: lo <= ms <= hi
    ensures var avg := Run(FRESH, ops).rttAvg;
      && (avg.Some? <==> Readings(ops) != [])
      && (avg.Some? ==> lo as real <= avg.value <= hi as real)
  {
    if ops != [] {
      var rest := ops[..|ops| - 1];
      if !ops[|ops| - 1].Reset? {
        assert forall ms | ms in Readings(rest) :: ms in Readings(ops);
        RttAverageIsBetween(rest, lo, hi);
        assert ops[|ops| - 1].Rtt? ==> ops[|ops| - 1].ms in Readings(ops);
      }
    }
  }

  // -------------------------------------------------------------------------
  // Decisions
  // -------------------------------------------------------------------------

  /** Worse signals: a fuller buffer, a slower round trip, a slower encoder. */
  predicate NoBetter(c: Controller, d: Controller) {
    && d.encodeAvg >= c.encodeAvg
    && c.buffer.Some? == d.buffer.Some?
    && (c.buffer.Some? ==> d.buffer.value >= c.buffer.value)
    && (c.rttAvg.Some? ==> d.rttAvg.Some? && d.rttAvg.value >= c.rttAvg.value)
  }

  /** Worse signals never buy a better picture. */
  lemma {:induction false} DecisionIsMonotone(c: Controller, d: Controller, budget: real)
    requires QP_MIN <= c.qp <= QP_MAX && c.qp == d.qp && NoBetter(c, d)
    ensures Decided(c, budget).qp <= Decided(d, budget).qp
  {
    assert Warning(d.rttAvg) <= Warning(c.rttAvg);
    assert 1.0 <= Warning(d.rttAvg);
    if Drained(d) {
      assert Drained(c);
    }
  }

  /**
    In the QP itself the decision keeps the order with one exception, and only there: a drained
    report counts from the second lowest QP on, so with a saturated encoder the controller at
    the lowest QP ends above the one a step up.
  */
  lemma {:induction false} QpOrderIsKept(c: Controller, q1: int, q2: int, budget: real)
    requires QP_MIN <= q1 <= q2 <= QP_MAX
    ensures Decided(c.(qp := q1), budget).qp <= Decided(c.(qp := q2), budget).qp <==>
              !(q1 == QP_MIN && q2 == QP_MIN + 1 && c.buffer.Some? && c.buffer.value < 0.5 && Saturated(c, budget))
  {
    assert 1.0 <= Warning(c.rttAvg);
    assert Saturated(c.(qp := q1), budget) == Saturated(c.(qp := q2), budget) == Saturated(c, budget);
  }

  /** The exception. */
  lemma {:induction false} DrainedReportIsIgnoredAtTheFloor(c: Controller, budget: real)
    requires c.buffer.Some? && c.buffer.value < 0.5 && Saturated(c, budget)
    ensures Decided(c.(qp := QP_MIN), budget).qp == QP_MIN + 1
    ensures Decided(c.(qp := QP_MIN + 1), budget).qp == QP_MIN
  {
  }

  /** How far a report of this much buffered video raises the QP under this averaged round trip. */
  function RaiseFor(buffer: real, rtt: real): nat {
    if buffer > 3.0 || (buffer > 2.5 && rtt > 80.0) || (buffer > 2.0 && rtt > 150.0) then 2
    else if buffer > 2.0 || (buffer > 1.5 && rtt > 80.0) || (buffer > 1.0 && rtt > 150.0) then 1
    else 0
  }

  /** Every decision in numbers: first the report, then, if it says nothing, the encode time. */
  lemma {:induction false} DecisionInNumbers(c: Controller, budget: real)
    requires QP_MIN <= c.qp <= QP_MAX
    ensures var q := Decided(c, budget).qp;
      var rtt := if c.rttAvg.Some? then c.rttAvg.value else 0.0;
      var raise := if c.buffer.Some? then RaiseFor(c.buffer.value, rtt) else 0;
      if raise > 0 then q == Min(c.qp + raise, 45)
      else if c.buffer.Some? && c.buffer.value < 0.5 && c.qp > 18 then q == c.qp - 1
      else if 0.0 < budget < 1.0 && c.encodeAvg > 0.8 * budget then q == Min(c.qp + 1, 45)
      else if 0.0 < budget < 1.0 && c.encodeAvg < 0.4 * budget then q == Max(c.qp - 1, 18)
      else q == c.qp
  {
  }

  /** What is decided on a report does not depend on the encode time or the budget. */
  lemma {:induction false} ReportWins(c: Controller, avg: real, b1: real, b2: real)
    requires ReportDecides(c)
    ensures Decided(c, b1).qp == Decided(c.(encodeAvg := avg), b2).qp
    ensures QP_MIN <= c.qp <= QP_MAX ==>
              (Decided(c, b1).qp > c.qp <==> Backlogged(c) && c.qp < QP_MAX) &&
              (Decided(c, b1).qp < c.qp <==> Drained(c))
  {
  }

  // -------------------------------------------------------------------------
  // Backing off from a busy encoder
  // -------------------------------------------------------------------------

  /** A frame dropped because the encoder is busy: a full-budget sample, then a decision. */
  function Drop(c: Controller, budget: real): Controller {
    Apply(Apply(c, Encode(budget)), Decision(budget))
  }

  function Drops(c: Controller, budget: real, n: nat): Controller {
    if n == 0 then c else Drop(Drops(c, budget, n - 1), budget)
  }

  /** 1 - 0.7^n: the share of the budget that n samples of it make up. */
  function Share(n: nat): (s: real)
    ensures 0.0 <= s < 1.0
  {
    if n == 0 then 0.0 else 0.3 + 0.7 * Share(n - 1)
  }

  lemma {:induction false} FirstShares()
    ensures Share(1) == 0.3 && Share(2) == 0.51 && Share(3) == 0.657 && Share(4) == 0.7599 && Share(5) == 0.83193
  {
    assert Share(1) == 0.3;
    assert Share(2) == 0.51;
    assert Share(3) == 0.657;
    assert Share(4) == 0.7599;
  }

  lemma {:induction false} ShareGrows(m: nat, n: nat)
    requires m <= n
    ensures Share(m) <= Share(n)
  {
    if m < n {
      ShareGrows(m, n - 1);
    }
  }

  /** The average after n drops: the share of the budget, the rest of what it was. */
  lemma {:induction false} AverageAfterDrops(c: Controller, budget: real, n: nat)
    ensures Drops(c, budget, n).encodeAvg == Share(n) * budget + (1.0 - Share(n)) * c.encodeAvg
    ensures c.buffer == None ==> Drops(c, budget, n).buffer == None
  {
    if n > 0 {
      AverageAfterDrops(c, budget, n - 1);
    }
  }

  lemma {:induction false} SaturatedFromFive(c: Controller, budget: real, n: nat)
    requires n >= 5 && 0.0 < budget < 1.0 && c.encodeAvg >= 0.0
    ensures Drops(c, budget, n).encodeAvg > 0.8 * budget
  {
    FirstShares();
    ShareGrows(5, n);
    AverageAfterDrops(c, budget, n);
    assert Share(n) * budget >= 0.83193 * budget;
    assert (1.0 - Share(n)) * c.encodeAvg >= 0.0;
  }

  lemma {:induction false} DropsRaise(c: Controller, budget: real, n: nat)
    requires 0.0 < budget < 1.0 && c.encodeAvg >= 0.0 && c.buffer == None && QP_MIN <= c.qp <= QP_MAX
    ensures QP_MIN <= Drops(c, budget, n).qp <= QP_MAX
    ensures Drops(c, budget, n).qp >= Min(QP_MAX, QP_MIN + n - 4)
  {
    if n > 0 {
      DropsRaise(c, budget, n - 1);
      AverageAfterDrops(c, budget, n - 1);
      if n >= 5 {
        SaturatedFromFive(c, budget, n);
        var d := Apply(Drops(c, budget, n - 1), Encode(budget));
        assert d.encodeAvg == Drops(c, budget, n).encodeAvg;
        assert Saturated(d, budget);
      }
    }
  }

  /** From any state, 31 consecutive busy drops without buffer reports reach the highest QP. */
  lemma {:induction false} BackOffBound(c: Controller, budget: real, n: nat)
    requires n >= 31
    requires 0.0 < budget < 1.0 && c.encodeAvg >= 0.0 && c.buffer == None && QP_MIN <= c.qp <= QP_MAX
    ensures Drops(c, budget, n).qp == QP_MAX
  {
    DropsRaise(c, budget, n);
  }

  /** No fewer do from the lowest QP with an idle encoder: the bound is exact. */
  lemma {:induction false} BackOffBoundIsExact(c: Controller, budget: real, n: nat)
    requires n <= 31 && 0.0 < budget < 1.0 && c.encodeAvg == 0.0 && c.buffer == None && c.qp == QP_MIN
    ensures Drops(c, budget, n).qp == QP_MIN + Max(0, n - 4)
  {
    if n > 0 {
      BackOffBoundIsExact(c, budget, n - 1);
      AverageAfterDrops(c, budget, n - 1);
      AverageAfterDrops(c, budget, n);
      if n >= 5 {
        SaturatedFromFive(c, budget, n);
      } else {
        FirstShares();
        ShareGrows(n, 4);
        assert Share(n) * budget <= 0.7599 * budget;
      }
    }
  }
}
