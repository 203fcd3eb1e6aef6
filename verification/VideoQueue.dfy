/**
  The drop-oldest video queue.  The queue object is proved against a function on
  its contents; what a drain returns is then stated on the history of pushes and
  drains alone.
*/
module VideoQueue {
  import opened Prelude

  const VIDEO_QUEUE_CAPACITY := 4

  /** The youngest `VIDEO_QUEUE_CAPACITY` elements. */
  function Youngest<T>(s: seq<T>): seq<T> {
    s[|s| - Min(|s|, VIDEO_QUEUE_CAPACITY)..]
  }

  lemma {:induction false} PushedOn<T>(q: seq<T>, rest: seq<T>, x: T)
    requires |q| <= VIDEO_QUEUE_CAPACITY && |rest| == Min(|q|, VIDEO_QUEUE_CAPACITY - 1)
    requires rest == q[|q| - |rest|..]
    ensures rest + [x] == Youngest(q + [x])
  {
  }

  // -------------------------------------------------------------------------
  // Histories
  // -------------------------------------------------------------------------

  datatype Op<T> = Push(frame: T) | Drain

  function Contents<T>(ops: seq<Op<T>>): seq<T> {
    if ops == [] || ops[|ops| - 1].Drain? then []
    else Youngest(Contents(ops[..|ops| - 1]) + [ops[|ops| - 1].frame])
  }

  /** Everything drained so far, in order. */
  function Drained<T>(ops: seq<Op<T>>): seq<T> {
    if ops == [] then []
    else Drained(ops[..|ops| - 1]) + if ops[|ops| - 1].Drain? then Contents(ops[..|ops| - 1]) else []
  }

  function Dropped<T>(ops: seq<Op<T>>): nat {
    if ops == [] then 0
    else Dropped(ops[..|ops| - 1]) +
         if ops[|ops| - 1].Push? && |Contents(ops[..|ops| - 1])| >= VIDEO_QUEUE_CAPACITY then 1 else 0
  }

  function Pushes<T>(ops: seq<Op<T>>): seq<T> {
    if ops == [] then []
    else Pushes(ops[..|ops| - 1]) + if ops[|ops| - 1].Push? then [ops[|ops| - 1].frame] else []
  }

  /** The pushes after the last drain. */
  function SinceDrain<T>(ops: seq<Op<T>>): seq<T> {
    if ops == [] || ops[|ops| - 1].Drain? then []
    else SinceDrain(ops[..|ops| - 1]) + [ops[|ops| - 1].frame]
  }

  /** A drain returns exactly the last min(4, n) of the n frames pushed since the drain before it. */
  lemma {:induction false} DrainReturnsYoungest<T>(ops: seq<Op<T>>)
    ensures Contents(ops) == Youngest(SinceDrain(ops))
  {
    if ops != [] && ops[|ops| - 1].Push? {
      DrainReturnsYoungest(ops[..|ops| - 1]);
    }
  }

  /** `a` is `b` with some elements left out. */
  ghost predicate Subsequence<T>(a: seq<T>, b: seq<T>)
    decreases |b|
  {
    a == [] ||
    (b != [] &&
     ((a[|a| - 1] == b[|b| - 1] && Subsequence(a[..|a| - 1], b[..|b| - 1])) || Subsequence(a, b[..|b| - 1])))
  }

  lemma {:induction false} SubsequenceAppend<T>(a: seq<T>, b: seq<T>, x: T)
    requires Subsequence(a, b)
    ensures Subsequence(a + [x], b + [x])
  {
    assert (a + [x])[..|a|] == a && (b + [x])[..|b|] == b;
  }

  lemma {:induction false} SubsequenceDrop<T>(a: seq<T>, b: seq<T>, k: nat)
    requires Subsequence(a, b) && k < |a|
    ensures Subsequence(a[..k] + a[k + 1..], b)
    decreases |b|
  {
    var n := |a| - 1;
    var less := a[..k] + a[k + 1..];
    if a[n] == b[|b| - 1] && Subsequence(a[..n], b[..|b| - 1]) {
      if k < n {
        SubsequenceDrop(a[..n], b[..|b| - 1], k);
        assert a[..n][..k] + a[..n][k + 1..] == less[..|less| - 1];
      } else {
        assert less == a[..n];
      }
    } else {
      SubsequenceDrop(a, b[..|b| - 1], k);
    }
  }

  lemma {:induction false} PushedSequence<T>(d: seq<T>, c: seq<T>, x: T)
    requires |c| <= VIDEO_QUEUE_CAPACITY
    ensures var all := d + c + [x];
      d + Youngest(c + [x]) == if |c| < VIDEO_QUEUE_CAPACITY then all else all[..|d|] + all[|d| + 1..]
  {
    var all := d + c + [x];
    if |c| < VIDEO_QUEUE_CAPACITY {
      assert d + (c + [x]) == all;
    } else {
      assert Youngest(c + [x]) == (c + [x])[1..];
      assert all[..|d|] == d && all[|d| + 1..] == (c + [x])[1..];
    }
  }

  /** One push: the drained part `d` and the queue `c` against the pushed history `p`. */
  lemma {:induction false} PushKeepsOrder<T>(d: seq<T>, c: seq<T>, p: seq<T>, x: T)
    requires Subsequence(d + c, p) && |c| <= VIDEO_QUEUE_CAPACITY
    ensures Subsequence(d + Youngest(c + [x]), p + [x])
  {
    SubsequenceAppend(d + c, p, x);
    PushedSequence(d, c, x);
    if |c| == VIDEO_QUEUE_CAPACITY {
      SubsequenceDrop(d + c + [x], p + [x], |d|);
    }
  }

  lemma {:induction false} HistoryStep<T>(ops: seq<Op<T>>, op: Op<T>)
    ensures Contents(ops + [op]) == if op.Drain? then [] else Youngest(Contents(ops) + [op.frame])
    ensures Drained(ops + [op]) == Drained(ops) + if op.Drain? then Contents(ops) else []
    ensures Pushes(ops + [op]) == Pushes(ops) + if op.Push? then [op.frame] else []
    ensures Dropped(ops + [op]) ==
              Dropped(ops) + if op.Push? && |Contents(ops)| >= VIDEO_QUEUE_CAPACITY then 1 else 0
  {
    assert (ops + [op])[..|ops|] == ops;
  }

  ghost predicate Accounted<T>(drained: seq<T>, queued: seq<T>, dropped: nat, pushed: seq<T>) {
    && Subsequence(drained + queued, pushed)
    && |pushed| == |drained| + |queued| + dropped
    && |queued| <= VIDEO_QUEUE_CAPACITY
  }

  lemma {:induction false} PushAccounted<T>(d: seq<T>, c: seq<T>, n: nat, p: seq<T>, x: T)
    requires Accounted(d, c, n, p)
    ensures Accounted(d, Youngest(c + [x]), n + (if |c| >= VIDEO_QUEUE_CAPACITY then 1 else 0), p + [x])
  {
    PushKeepsOrder(d, c, p, x);
  }

  lemma {:induction false} DrainAccounted<T>(d: seq<T>, c: seq<T>, n: nat, p: seq<T>)
    requires Accounted(d, c, n, p)
    ensures Accounted(d + c, [], n, p)
  {
    assert d + c + [] == d + c;
  }

  /**
    Over every interleaving of pushes and drains: what was drained, followed by
    what is queued, is the pushed history in order with some frames left out, and
    those are exactly the ones counted as dropped.
  */
  lemma {:induction false} NothingLostButDropped<T>(ops: seq<Op<T>>)
    ensures Accounted(Drained(ops), Contents(ops), Dropped(ops), Pushes(ops))
  {
    if ops != [] {
      var before, op := ops[..|ops| - 1], ops[|ops| - 1];
      assert ops == before + [op];
      NothingLostButDropped(before);
      HistoryStep(before, op);
      if op.Drain? {
        assert Pushes(before) + [] == Pushes(before);
        DrainAccounted(Drained(before), Contents(before), Dropped(before), Pushes(before));
      } else {
        assert Drained(before) + [] == Drained(before);
        PushAccounted(Drained(before), Contents(before), Dropped(before), Pushes(before), op.frame);
      }
    }
  }

  // -------------------------------------------------------------------------
  // The queue object
  // -------------------------------------------------------------------------

  /** What popping down to `rest` and pushing `x` means for the history. */
  lemma {:induction false} PushStep<T>(ops: seq<Op<T>>, rest: seq<T>, x: T)
    requires var q := Contents(ops);
      && |q| <= VIDEO_QUEUE_CAPACITY && |rest| == Min(|q|, VIDEO_QUEUE_CAPACITY - 1)
      && rest == q[|q| - |rest|..]
    ensures Contents(ops + [Op.Push(x)]) == rest + [x]
    ensures Dropped(ops + [Op.Push(x)]) == Dropped(ops) + |Contents(ops)| - |rest|
  {
    HistoryStep(ops, Op.Push(x));
    PushedOn(Contents(ops), rest, x);
  }

  lemma {:induction false} DrainStep<T>(ops: seq<Op<T>>)
    ensures Contents(ops + [Op.Drain]) == [] && Dropped(ops + [Op.Drain]) == Dropped(ops)
  {
    HistoryStep(ops, Op<T>.Drain);
  }

  class Queue<T> {
    var inner: seq<T>
    var dropped: nat
    ghost var ops: seq<Op<T>>  // every push and drain so far

    ghost predicate Valid()
      reads this
    {
      && |inner| <= VIDEO_QUEUE_CAPACITY
      && inner == Contents(ops) && dropped == Dropped(ops)
    }

    constructor ()
      ensures Valid() && ops == []
    {
      inner, dropped, ops := [], 0, [];
    }

    method Push(frame: T)
      requires Valid()
      modifies this
      ensures Valid() && ops == old(ops) + [Op.Push(frame)]
    {
      ghost var before := inner;
      while |inner| >= VIDEO_QUEUE_CAPACITY
        invariant Min(|before|, VIDEO_QUEUE_CAPACITY - 1) <= |inner| <= |before|
        invariant inner == before[|before| - |inner|..]
        invariant dropped + |inner| == old(dropped) + |before|
        invariant ops == old(ops)
        decreases |inner|
      {
        inner := inner[1..];
        dropped := dropped + 1;
      }
      PushStep(ops, inner, frame);
      inner := inner + [frame];
      ops := ops + [Op.Push(frame)];
    }

    /** Everything queued: by `DrainReturnsYoungest`, the youngest of what was pushed since the last drain. */
    method Drain() returns (frames: seq<T>)
      requires Valid()
      modifies this
      ensures Valid() && ops == old(ops) + [Op.Drain]
      ensures frames == Contents(old(ops))
    {
      DrainStep(ops);
      frames := inner;
      inner := [];
      ops := ops + [Op.Drain];
    }
  }
}
