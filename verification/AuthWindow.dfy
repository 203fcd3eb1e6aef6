/**
  The login flow of one address around the rate limiter: a post is checked, its
  code is verified while others come and go, and only then is its failure
  recorded.  With at most `k` posts in flight at a time, a window shorter than
  60 seconds holds at most 2k + 4 recorded failures, and for every `k` there is a
  run that reaches this.  One at a time (k = 1) that makes six, not five.
*/
module AuthWindow {
  import opened Prelude
  import opened RateLimiter

  /** A post that passed the check, at `checked`, when `seen` failures were on record. */
  datatype Post = Post(checked: nat, seen: nat)

  datatype Failure = Failure(time: nat, post: Post)

  datatype State = State(failures: seq<Failure>, posts: seq<Post>, clock: nat)

  const INIT := State([], [], 0)

  /** `Check`: a post arrives.  `Finish`: the `i`-th post in flight turns out right or wrong. */
  datatype Label = Check(now: nat) | Finish(now: nat, i: nat, right: bool)

  function Times(fs: seq<Failure>): (ts: seq<nat>)
    ensures |ts| == |fs| && forall i :: 0 <= i < |fs| ==> ts[i] == fs[i].time
  {
    seq(|fs|, i requires 0 <= i < |fs| => fs[i].time)
  }

  predicate Enabled(s: State, l: Label, k: nat) {
    && s.clock <= l.now
    && (l.Check? ==> |s.posts| < k)
    && (l.Finish? ==> l.i < |s.posts|)
  }

  function Apply(s: State, l: Label): State
    requires l.Finish? ==> l.i < |s.posts|
  {
    match l
    case Check(now) =>
      if Remaining(Times(s.failures), now).Some? then s.(clock := now)
      else s.(posts := s.posts + [Post(now, |s.failures|)], clock := now)
    case Finish(now, i, right) =>
      State(if right then s.failures else s.failures + [Failure(now, s.posts[i])],
            s.posts[..i] + s.posts[i + 1..], now)
  }

  function Run(ls: seq<Label>, k: nat): Option<State> {
    if ls == [] then Some(INIT)
    else
      var before := Run(ls[..|ls| - 1], k);
      if before.Some? && Enabled(before.value, ls[|ls| - 1], k)
      then Some(Apply(before.value, ls[|ls| - 1]))
      else None
  }

  // -------------------------------------------------------------------------
  // Stragglers: posts checked before the p-th failure and recorded after it
  // -------------------------------------------------------------------------

  function Below(posts: seq<Post>, p: nat): (n: nat)
    ensures n <= |posts|
  {
    if posts == [] then 0 else Below(posts[..|posts| - 1], p) + if posts[|posts| - 1].seen < p then 1 else 0
  }

  lemma {:induction false} BelowAppend(a: seq<Post>, b: seq<Post>, p: nat)
    ensures Below(a + b, p) == Below(a, p) + Below(b, p)
  {
    if b == [] {
      assert a + b == a;
    } else {
      assert (a + b)[..|a + b| - 1] == a + b[..|b| - 1];
      BelowAppend(a, b[..|b| - 1], p);
    }
  }

  lemma {:induction false} BelowOne(q: Post, p: nat)
    ensures Below([q], p) == if q.seen < p then 1 else 0
  {
    assert [q][..0] == [];
  }

  lemma {:induction false} BelowAll(posts: seq<Post>, p: nat)
    requires forall i :: 0 <= i < |posts| ==> posts[i].seen < p
    ensures Below(posts, p) == |posts|
  {
    if posts != [] {
      BelowAll(posts[..|posts| - 1], p);
    }
  }

  function PostsOf(fs: seq<Failure>): (ps: seq<Post>)
    ensures |ps| == |fs| && forall i :: 0 <= i < |fs| ==> ps[i] == fs[i].post
  {
    seq(|fs|, i requires 0 <= i < |fs| => fs[i].post)
  }

  function Stragglers(s: State, p: nat): nat
    requires p <= |s.failures|
  {
    Below(PostsOf(s.failures)[p..], p) + Below(s.posts, p)
  }

  /** A post admitted when `seen` failures were on record, the last of them no later than its check. */
  ghost predicate Admitted(fs: seq<Failure>, q: Post) {
    && q.seen <= |fs|
    && (q.seen > 0 ==> fs[q.seen - 1].time <= q.checked)
    && Remaining(Times(fs[..q.seen]), q.checked).None?
  }

  ghost predicate TimesOk(s: State) {
    Sorted(Times(s.failures)) && UpTo(Times(s.failures), s.clock)
  }

  ghost predicate PostsOk(s: State, k: nat) {
    && |s.posts| <= k
    && forall j :: 0 <= j < |s.posts| ==> s.posts[j].checked <= s.clock && Admitted(s.failures, s.posts[j])
  }

  ghost predicate RecordOk(fs: seq<Failure>, j: nat)
    requires j < |fs|
  {
    fs[j].post.checked <= fs[j].time && Admitted(fs[..j], fs[j].post)
  }

  ghost predicate RecordsOk(fs: seq<Failure>) {
    forall j :: 0 <= j < |fs| ==> RecordOk(fs, j)
  }

  ghost predicate StragglersOk(s: State, k: nat) {
    forall p :: 1 <= p <= |s.failures| ==> Stragglers(s, p) < k
  }

  ghost predicate Inv(s: State, k: nat) {
    TimesOk(s) && PostsOk(s, k) && RecordsOk(s.failures) && StragglersOk(s, k)
  }

  lemma {:induction false} CheckStep(s: State, now: nat, k: nat)
    requires Inv(s, k) && Enabled(s, Check(now), k)
    ensures Inv(Apply(s, Check(now)), k)
  {
    var t := Apply(s, Check(now));
    if t.posts != s.posts {
      var q := Post(now, |s.failures|);
      assert s.failures[..|s.failures|] == s.failures;
      assert Admitted(s.failures, q) by {
        if |s.failures| > 0 { assert Times(s.failures)[|s.failures| - 1] <= s.clock; }
      }
      forall p | 1 <= p <= |s.failures| ensures Stragglers(t, p) < k {
        BelowAppend(s.posts, [q], p);
        BelowOne(q, p);
        assert Stragglers(s, p) < k;
      }
    } else {
      forall p | 1 <= p <= |s.failures| ensures Stragglers(t, p) < k {
        assert Stragglers(s, p) < k;
      }
    }
  }

  /** A post leaving the ones in flight. */
  lemma {:induction false} RemoveBelow(posts: seq<Post>, i: nat, p: nat)
    requires i < |posts|
    ensures Below(posts[..i] + posts[i + 1..], p) + (if posts[i].seen < p then 1 else 0) == Below(posts, p)
  {
    assert posts == posts[..i] + ([posts[i]] + posts[i + 1..]);
    BelowAppend(posts[..i], [posts[i]] + posts[i + 1..], p);
    BelowAppend([posts[i]], posts[i + 1..], p);
    BelowAppend(posts[..i], posts[i + 1..], p);
    BelowOne(posts[i], p);
  }

  lemma {:induction false} StragglersMove(s: State, l: Label, k: nat, p: nat)
    requires PostsOk(s, k) && StragglersOk(s, k) && l.Finish? && Enabled(s, l, k)
    requires 1 <= p <= |Apply(s, l).failures|
    ensures Stragglers(Apply(s, l), p) < k
  {
    var t := Apply(s, l);
    RemoveBelow(s.posts, l.i, p);
    if l.right {
      assert Stragglers(s, p) < k;
    } else if p <= |s.failures| {
      assert Stragglers(s, p) < k;
      assert PostsOf(t.failures)[p..] == PostsOf(s.failures)[p..] + [s.posts[l.i]];
      BelowAppend(PostsOf(s.failures)[p..], [s.posts[l.i]], p);
      BelowOne(s.posts[l.i], p);
    } else {
      assert PostsOf(t.failures)[p..] == [];
    }
  }

  lemma {:induction false} AdmittedLater(fs: seq<Failure>, f: Failure, q: Post)
    requires Admitted(fs, q)
    ensures Admitted(fs + [f], q)
  {
    assert (fs + [f])[..q.seen] == fs[..q.seen];
  }

  lemma {:induction false} PostsLater(s: State, l: Label, k: nat)
    requires PostsOk(s, k) && l.Finish? && Enabled(s, l, k)
    ensures PostsOk(Apply(s, l), k)
  {
    var t := Apply(s, l);
    forall j | 0 <= j < |t.posts| ensures t.posts[j].checked <= t.clock && Admitted(t.failures, t.posts[j]) {
      var p := if j < l.i then s.posts[j] else s.posts[j + 1];
      assert t.posts[j] == p && Admitted(s.failures, p);
      if !l.right { AdmittedLater(s.failures, Failure(l.now, s.posts[l.i]), p); }
    }
  }

  lemma {:induction false} RecordLater(fs: seq<Failure>, f: Failure)
    requires RecordsOk(fs) && f.post.checked <= f.time && Admitted(fs, f.post)
    ensures RecordsOk(fs + [f])
  {
    var all := fs + [f];
    forall j | 0 <= j < |all| ensures RecordOk(all, j) {
      assert all[..j] == fs[..j];
      if j < |fs| {
        assert RecordOk(fs, j);
      } else {
        assert fs[..j] == fs;
      }
    }
  }

  lemma {:induction false} FinishStep(s: State, l: Label, k: nat)
    requires Inv(s, k) && l.Finish? && Enabled(s, l, k)
    ensures Inv(Apply(s, l), k)
  {
    var t := Apply(s, l);
    PostsLater(s, l, k);
    assert Admitted(s.failures, s.posts[l.i]);
    if !l.right { RecordLater(s.failures, Failure(l.now, s.posts[l.i])); }
    forall p | 1 <= p <= |t.failures| ensures Stragglers(t, p) < k {
      StragglersMove(s, l, k, p);
    }
    assert Times(t.failures) == if l.right then Times(s.failures) else Times(s.failures) + [l.now];
  }

  lemma {:induction false} InvHolds(ls: seq<Label>, k: nat)
    requires Run(ls, k).Some?
    ensures Inv(Run(ls, k).value, k)
  {
    if ls != [] {
      InvHolds(ls[..|ls| - 1], k);
      var s, l := Run(ls[..|ls| - 1], k).value, ls[|ls| - 1];
      if l.Check? { CheckStep(s, l.now, k); } else { FinishStep(s, l, k); }
    }
  }

  // -------------------------------------------------------------------------
  // The bound
  // -------------------------------------------------------------------------

  lemma {:induction false} TooManyStragglers(s: State, k: nat, p: nat)
    requires p + k <= |s.failures|
    requires forall j :: p <= j < p + k ==> PostsOf(s.failures)[j].seen < p
    ensures Stragglers(s, p) >= k
  {
    var posts := PostsOf(s.failures);
    assert posts[p..] == posts[p..p + k] + posts[p + k..];
    BelowAppend(posts[p..p + k], posts[p + k..], p);
    BelowAll(posts[p..p + k], p);
  }

  /** Among `k` failures in a row, one was checked with all failures before them on record. */
  lemma {:induction false} NotAllStragglers(s: State, k: nat, p: nat) returns (r: nat)
    requires StragglersOk(s, k) && 1 <= p && p + k <= |s.failures|
    ensures p <= r < p + k && p <= s.failures[r].post.seen
  {
    var posts := PostsOf(s.failures);
    assert Stragglers(s, p) < k;
    if forall j :: p <= j < p + k ==> posts[j].seen < p {
      TooManyStragglers(s, k, p);
    }
    r :| p <= r < p + k && !(posts[r].seen < p);
  }

  /** An admitted post with five failures of its last minute on record came 30 seconds after the last of them. */
  lemma {:induction false} LockoutSeparates(fs: seq<Failure>, i: nat, q: Post)
    requires Sorted(Times(fs)) && Admitted(fs, q) && i + 5 <= q.seen
    requires q.checked < fs[i].time + WINDOW
    ensures fs[q.seen - 1].time + LOCKOUT <= q.checked
  {
    var m, ts := q.seen, Times(fs[..q.seen]);
    assert forall j :: 0 <= j < m ==> ts[j] == Times(fs)[j];
    assert Times(fs)[i] <= Times(fs)[m - 5];
    forall j | 0 <= j < m ensures ts[j] <= q.checked {
      assert Times(fs)[j] <= Times(fs)[m - 1];
    }
    NotLockedOut(ts, q.checked);
  }

  /** A failure `r` in the same window, checked after failure `p` was on record, is 30 seconds later than that. */
  lemma {:induction false} Separated(s: State, i: nat, p: nat, r: nat)
    requires TimesOk(s) && RecordsOk(s.failures) && r < |s.failures|
    requires i + 4 <= p && p < s.failures[r].post.seen
    requires p < |s.failures| && s.failures[r].time < s.failures[i].time + WINDOW
    ensures p < r && s.failures[p].time + LOCKOUT <= s.failures[r].time
  {
    assert RecordOk(s.failures, r);
    var q, before := s.failures[r].post, s.failures[..r];
    assert forall j :: 0 <= j < r ==> Times(before)[j] == Times(s.failures)[j];
    LockoutSeparates(before, i, q);
    assert Times(s.failures)[p] <= Times(s.failures)[q.seen - 1];
  }

  /**
    With at most `k` posts in flight, any 2k + 5 consecutive failures span at
    least 60 seconds.
  */
  lemma {:induction false} FailuresPerWindow(ls: seq<Label>, k: nat, i: nat)
    requires Run(ls, k).Some? && i + 2 * k + 4 < |Run(ls, k).value.failures|
    ensures var fs := Run(ls, k).value.failures;
      fs[i + 2 * k + 4].time - fs[i].time >= WINDOW
  {
    InvHolds(ls, k);
    WindowOf(Run(ls, k).value, k, i, i + 2 * k + 4);
  }

  lemma {:induction false} WindowOf(s: State, k: nat, i: nat, last: nat)
    requires Inv(s, k) && i + 2 * k + 4 == last < |s.failures|
    ensures s.failures[last].time - s.failures[i].time >= WINDOW
  {
    var ts := Times(s.failures);
    if ts[last] - ts[i] < WINDOW {
      assert ts[i] <= ts[i + 4];
      var r := NotAllStragglers(s, k, i + 5);
      assert ts[r] <= ts[last];
      Separated(s, i, i + 4, r);
      var q := NotAllStragglers(s, k, r + 1);
      assert ts[q] <= ts[last];
      Separated(s, i, r, q);
    }
  }

  /** One post at a time: any window shorter than a minute holds at most six failures. */
  lemma {:induction false} SixFailuresPerMinute(ls: seq<Label>, i: nat)
    requires Run(ls, 1).Some? && i + 6 < |Run(ls, 1).value.failures|
    ensures Run(ls, 1).value.failures[i + 6].time - Run(ls, 1).value.failures[i].time >= WINDOW
  {
    FailuresPerWindow(ls, 1, i);
  }

  // -------------------------------------------------------------------------
  // The bound is reached
  // -------------------------------------------------------------------------

  lemma {:induction false} Go(ls: seq<Label>, k: nat, l: Label) returns (next: seq<Label>)
    requires Run(ls, k).Some? && Enabled(Run(ls, k).value, l, k)
    ensures Run(next, k) == Some(Apply(Run(ls, k).value, l))
  {
    next := ls + [l];
    assert next[..|ls|] == ls;
  }

  /** `n` posts are admitted at once. */
  lemma {:induction false} AdmitMany(ls: seq<Label>, k: nat, now: nat, n: nat) returns (next: seq<Label>)
    requires Run(ls, k).Some? && Run(ls, k).value.clock <= now && |Run(ls, k).value.posts| + n <= k
    requires Remaining(Times(Run(ls, k).value.failures), now).None?
    ensures Run(next, k).Some?
    ensures var s, t := Run(ls, k).value, Run(next, k).value;
      t.failures == s.failures && |t.posts| == |s.posts| + n && t.clock <= now
    decreases n
  {
    next := ls;
    if n > 0 {
      next := Go(next, k, Check(now));
      next := AdmitMany(next, k, now, n - 1);
    }
  }

  /** All posts in flight fail at once. */
  lemma {:induction false} FailAll(ls: seq<Label>, k: nat, now: nat) returns (next: seq<Label>)
    requires Run(ls, k).Some? && Run(ls, k).value.clock <= now
    ensures Run(next, k).Some?
    ensures var s, t := Run(ls, k).value, Run(next, k).value;
      && t.posts == [] && t.clock <= now
      && |t.failures| == |s.failures| + |s.posts|
      && s.failures <= t.failures
      && forall j :: |s.failures| <= j < |t.failures| ==> t.failures[j].time == now
    decreases |Run(ls, k).value.posts|
  {
    next := ls;
    if Run(ls, k).value.posts != [] {
      next := Go(next, k, Finish(now, 0, false));
      next := FailAll(next, k, now);
    }
  }

  lemma {:induction false} FewFailures(fs: seq<Failure>, now: nat)
    requires |fs| < MAX_FAILED_ATTEMPTS
    ensures Remaining(Times(fs), now).None?
  {
  }

  /** `n` failures one after the other at time 0. */
  lemma {:induction false} FailInTurn(k: nat, n: nat) returns (ls: seq<Label>)
    requires k >= 1 && n <= 4
    ensures Run(ls, k).Some?
    ensures var s := Run(ls, k).value;
      && s.posts == [] && s.clock == 0 && |s.failures| == n
      && forall j :: 0 <= j < n ==> s.failures[j].time == 0
  {
    ls := [];
    if n > 0 {
      ls := FailInTurn(k, n - 1);
      FewFailures(Run(ls, k).value.failures, 0);
      ls := AdmitMany(ls, k, 0, 1);
      ls := FailAll(ls, k, 0);
    }
  }

  lemma {:induction false} LockoutOver(fs: seq<Failure>)
    requires fs != [] && forall j :: 0 <= j < |fs| ==> fs[j].time == 0
    ensures Remaining(Times(fs), LOCKOUT).None?
  {
    RecentIsSuffix(Times(fs), LOCKOUT);
  }

  /** For every `k` some run records 2k + 4 failures within 30 seconds. */
  lemma {:induction false} BoundIsReached(k: nat) returns (ls: seq<Label>)
    requires k >= 1
    ensures Run(ls, k).Some?
    ensures var fs := Run(ls, k).value.failures;
      |fs| == 2 * k + 4 && fs[|fs| - 1].time - fs[0].time == LOCKOUT
  {
    ls := FailInTurn(k, 4);
    FewFailures(Run(ls, k).value.failures, 0);
    ls := AdmitMany(ls, k, 0, k);
    ls := FailAll(ls, k, 0);
    LockoutOver(Run(ls, k).value.failures);
    ls := AdmitMany(ls, k, LOCKOUT, k);
    ls := FailAll(ls, k, LOCKOUT);
  }
}
