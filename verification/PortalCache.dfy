/**
  The cache of portal sessions, shared by any number of threads: a weak reference to
  the session created last, checked without and again with the acquisition lock.
*/
module PortalCache {
  import opened Prelude

  /** Where a thread is in its acquisition; `id` is a session it holds a reference to. */
  datatype Phase =
    | Away
    | Fast(flag: bool)
    | Waiting(flag: bool)
    | Recheck(flag: bool)
    | Creating(flag: bool)
    | Storing(flag: bool, id: nat)
    | Leaving(flag: bool, id: nat)
    | Returned(flag: bool, id: nat)

  /** `users`: references held outside of acquisitions, by capturables and recorders. */
  datatype Session = Session(flag: bool, users: nat)

  /** `cache` keeps no session alive. */
  datatype State = State(threads: seq<Phase>, lock: Option<nat>, cache: Option<nat>, sessions: seq<Session>)

  function Start(threads: nat): State {
    State(seq(threads, _ => Away), None, None, [])
  }

  predicate Owns(p: Phase, id: nat) {
    (p.Storing? || p.Leaving? || p.Returned?) && p.id == id
  }

  /** A session lives while anyone holds a strong reference. */
  predicate Live(s: State, id: nat) {
    id < |s.sessions| && (s.sessions[id].users > 0 || exists t: nat | t < |s.threads| :: Owns(s.threads[t], id))
  }

  /** The weak reference in the cache can be upgraded, to a session with this flag. */
  predicate Serves(s: State, flag: bool) {
    s.cache.Some? && Live(s, s.cache.value) && s.sessions[s.cache.value].flag == flag
  }

  // -------------------------------------------------------------------------
  // Steps
  // -------------------------------------------------------------------------

  datatype Label =
    | Call(t: nat, flag: bool)
    | FastCheck(t: nat)
    | Lock(t: nat)
    | Check(t: nat)
    | Create(t: nat)
    | Fail(t: nat)
    | Store(t: nat)
    | Unlock(t: nat)
    | Return(t: nat)
    | Clone(id: nat)
    | Drop(id: nat)

  predicate Possible(s: State, l: Label) {
    match l
    case Call(t, _) => t < |s.threads| && s.threads[t].Away?
    case FastCheck(t) => t < |s.threads| && s.threads[t].Fast?
    case Lock(t) => t < |s.threads| && s.threads[t].Waiting? && s.lock == None
    case Check(t) => t < |s.threads| && s.threads[t].Recheck?
    case Create(t) => t < |s.threads| && s.threads[t].Creating?
    case Fail(t) => t < |s.threads| && s.threads[t].Creating?
    case Store(t) => t < |s.threads| && s.threads[t].Storing?
    case Unlock(t) => t < |s.threads| && s.threads[t].Leaving?
    case Return(t) => t < |s.threads| && s.threads[t].Returned? && s.threads[t].id < |s.sessions|
    case Clone(id) => id < |s.sessions| && s.sessions[id].users > 0
    case Drop(id) => id < |s.sessions| && s.sessions[id].users > 0
  }

  function At(s: State, t: nat, p: Phase): State
    requires t < |s.threads|
  {
    s.(threads := s.threads[t := p])
  }

  function Used(s: State, id: nat, users: nat): State
    requires id < |s.sessions|
  {
    s.(sessions := s.sessions[id := s.sessions[id].(users := users)])
  }

  function Apply(s: State, l: Label): State
    requires Possible(s, l)
  {
    match l
    case Call(t, flag) => At(s, t, Fast(flag))
    case FastCheck(t) =>
      var flag := s.threads[t].flag;
      At(s, t, if Serves(s, flag) then Returned(flag, s.cache.value) else Waiting(flag))
    case Lock(t) => At(s, t, Recheck(s.threads[t].flag)).(lock := Some(t))
    case Check(t) =>
      var flag := s.threads[t].flag;
      At(s, t, if Serves(s, flag) then Leaving(flag, s.cache.value) else Creating(flag))
    case Create(t) =>
      var flag := s.threads[t].flag;
      At(s, t, Storing(flag, |s.sessions|)).(sessions := s.sessions + [Session(flag, 0)])
    case Fail(t) => At(s, t, Away).(lock := None)
    case Store(t) => At(s, t, Leaving(s.threads[t].flag, s.threads[t].id)).(cache := Some(s.threads[t].id))
    case Unlock(t) => At(s, t, Returned(s.threads[t].flag, s.threads[t].id)).(lock := None)
    case Return(t) =>
      var id := s.threads[t].id;
      Used(At(s, t, Away), id, s.sessions[id].users + 1)
    case Clone(id) => Used(s, id, s.sessions[id].users + 1)
    case Drop(id) => Used(s, id, s.sessions[id].users - 1)
  }

  predicate AllPossible(s: State, ls: seq<Label>)
    decreases |ls|
  {
    ls == [] || (Possible(s, ls[0]) && AllPossible(Apply(s, ls[0]), ls[1..]))
  }

  function Run(s: State, ls: seq<Label>): State
    requires AllPossible(s, ls)
    decreases |ls|
  {
    if ls == [] then s else Run(Apply(s, ls[0]), ls[1..])
  }

  // -------------------------------------------------------------------------
  // What every run keeps
  // -------------------------------------------------------------------------

  predicate Critical(p: Phase) {
    p.Recheck? || p.Creating? || p.Storing? || p.Leaving?
  }

  /** The threads inside the lock are the one that holds it. */
  predicate Exclusive(s: State) {
    forall t: nat | t < |s.threads| :: Critical(s.threads[t]) <==> s.lock == Some(t)
  }

  predicate Named(p: Phase, sessions: seq<Session>) {
    p.Storing? || p.Leaving? || p.Returned? ==> p.id < |sessions| && sessions[p.id].flag == p.flag
  }

  /** References lead to sessions, and an acquired session has the flag asked for. */
  predicate WellNamed(s: State) {
    && (s.cache.Some? ==> s.cache.value < |s.sessions|)
    && forall t: nat | t < |s.threads| :: Named(s.threads[t], s.sessions)
  }

  /** No thread is creating or about to overwrite while the cache would serve it. */
  predicate Needed(s: State) {
    forall t: nat | t < |s.threads| :: s.threads[t].Creating? || s.threads[t].Storing? ==> !Serves(s, s.threads[t].flag)
  }

  predicate Good(s: State) {
    Exclusive(s) && WellNamed(s) && Needed(s)
  }

  lemma {:induction false} ExclusiveStep(s: State, l: Label)
    requires Exclusive(s) && Possible(s, l)
    ensures Exclusive(Apply(s, l))
  {
  }

  /** A phase keeps its name when sessions are only added or change hands. */
  lemma {:induction false} StillNamed(p: Phase, before: seq<Session>, after: seq<Session>)
    requires Named(p, before) && |before| <= |after|
    requires forall id: nat | id < |before| :: after[id].flag == before[id].flag
    ensures Named(p, after)
  {
  }

  lemma {:induction false} SessionsKeepFlags(s: State, l: Label)
    requires Possible(s, l)
    ensures |s.sessions| <= |Apply(s, l).sessions|
    ensures forall id: nat | id < |s.sessions| :: Apply(s, l).sessions[id].flag == s.sessions[id].flag
  {
  }

  lemma {:induction false} OwnPhaseNamed(s: State, l: Label)
    requires WellNamed(s) && Possible(s, l) && !l.Clone? && !l.Drop?
    ensures Named(Apply(s, l).threads[l.t], Apply(s, l).sessions)
  {
    assert Named(s.threads[l.t], s.sessions);
  }

  lemma {:induction false} WellNamedStep(s: State, l: Label)
    requires WellNamed(s) && Possible(s, l)
    ensures WellNamed(Apply(s, l))
  {
    var r := Apply(s, l);
    SessionsKeepFlags(s, l);
    if l.Store? {
      assert Named(s.threads[l.t], s.sessions);
    }
    forall t: nat | t < |r.threads| ensures Named(r.threads[t], r.sessions) {
      if !l.Clone? && !l.Drop? && t == l.t {
        OwnPhaseNamed(s, l);
      } else {
        assert Named(s.threads[t], s.sessions);
        StillNamed(s.threads[t], s.sessions, r.sessions);
      }
    }
  }

  /** No step brings a session back to life: an upgrade needs one that lives. */
  lemma {:induction false} DeadStaysDead(s: State, l: Label, id: nat)
    requires Possible(s, l) && id < |s.sessions| && !Live(s, id)
    ensures !Live(Apply(s, l), id)
  {
    var r := Apply(s, l);
    forall t: nat | t < |r.threads| ensures !Owns(r.threads[t], id) {
      assert !Owns(s.threads[t], id);
    }
    if l.Return? {
      assert !Owns(s.threads[l.t], id);
    }
  }

  /** Flags do not change, and without a store the cache does not. */
  lemma {:induction false} ServesOnlyByStore(s: State, l: Label, flag: bool)
    requires WellNamed(s) && Possible(s, l) && !l.Store? && !Serves(s, flag)
    ensures !Serves(Apply(s, l), flag)
  {
    if s.cache.Some? && !Live(s, s.cache.value) {
      DeadStaysDead(s, l, s.cache.value);
    }
  }

  lemma {:induction false} NeededStep(s: State, l: Label)
    requires Good(s) && Possible(s, l)
    ensures Needed(Apply(s, l))
  {
    var r := Apply(s, l);
    forall t: nat | t < |r.threads| && (r.threads[t].Creating? || r.threads[t].Storing?)
      ensures !Serves(r, r.threads[t].flag)
    {
      if !l.Store? {
        ServesOnlyByStore(s, l, r.threads[t].flag);
      }
    }
  }

  lemma {:induction false} GoodStep(s: State, l: Label)
    requires Good(s) && Possible(s, l)
    ensures Good(Apply(s, l))
  {
    ExclusiveStep(s, l);
    WellNamedStep(s, l);
    NeededStep(s, l);
  }

  lemma {:induction false} GoodRun(s: State, ls: seq<Label>)
    requires Good(s) && AllPossible(s, ls)
    ensures Good(Run(s, ls))
    decreases |ls|
  {
    if ls != [] {
      GoodStep(s, ls[0]);
      GoodRun(Apply(s, ls[0]), ls[1..]);
    }
  }

  lemma {:induction false} StartIsGood(threads: nat)
    ensures Good(Start(threads))
  {
  }

  /** Over every run of any number of threads, one at a time is past the lock. */
  lemma {:induction false} OneAcquirerAtATime(threads: nat, ls: seq<Label>, t: nat, u: nat)
    requires AllPossible(Start(threads), ls)
    requires var s := Run(Start(threads), ls);
      t < |s.threads| && u < |s.threads| && Critical(s.threads[t]) && Critical(s.threads[u])
    ensures t == u
  {
    StartIsGood(threads);
    GoodRun(Start(threads), ls);
  }

  /** What is returned lives and has the flag asked for. */
  lemma {:induction false} ReturnedSessionFits(threads: nat, ls: seq<Label>, t: nat)
    requires AllPossible(Start(threads), ls)
    requires var s := Run(Start(threads), ls); t < |s.threads| && s.threads[t].Returned?
    ensures var s := Run(Start(threads), ls); var p := s.threads[t];
      Live(s, p.id) && s.sessions[p.id].flag == p.flag
  {
    StartIsGood(threads);
    GoodRun(Start(threads), ls);
    var s := Run(Start(threads), ls);
    assert Named(s.threads[t], s.sessions);
    assert Owns(s.threads[t], s.threads[t].id);
  }

  /** No session is created, or put over another, while the cache holds a live one with the same flag. */
  lemma {:induction false} CreatesOnlyWhenNeeded(threads: nat, ls: seq<Label>, l: Label)
    requires AllPossible(Start(threads), ls) && (l.Create? || l.Store?) && Possible(Run(Start(threads), ls), l)
    ensures var s := Run(Start(threads), ls); !Serves(s, s.threads[l.t].flag)
  {
    StartIsGood(threads);
    GoodRun(Start(threads), ls);
  }

  // -------------------------------------------------------------------------
  // Sharing
  // -------------------------------------------------------------------------

  predicate PhaseShares(p: Phase, flag: bool, id: nat) {
    match p
    case Away => true
    case Fast(f) => f == flag
    case Waiting(f) => f == flag
    case Recheck(f) => f == flag
    case Creating(_) => false
    case Storing(_, _) => false
    case Leaving(f, i) => f == flag ==> i == id
    case Returned(f, i) => f == flag ==> i == id
  }

  /** The session is in the cache, and everyone at work wants its flag and gets it. */
  predicate Shared(s: State, flag: bool, id: nat) {
    && s.cache == Some(id) && Live(s, id) && s.sessions[id].flag == flag
    && forall t: nat | t < |s.threads| :: PhaseShares(s.threads[t], flag, id)
  }

  /** Only this flag is asked for, and the session is not let go. */
  predicate Held(s: State, ls: seq<Label>, flag: bool, id: nat)
    requires AllPossible(s, ls)
    decreases |ls|
  {
    ls == [] ||
      (&& (ls[0].Call? ==> ls[0].flag == flag)
       && Live(Apply(s, ls[0]), id)
       && Held(Apply(s, ls[0]), ls[1..], flag, id))
  }

  lemma {:induction false} SharedStep(s: State, l: Label, flag: bool, id: nat)
    requires Shared(s, flag, id) && Possible(s, l) && (l.Call? ==> l.flag == flag) && Live(Apply(s, l), id)
    ensures Shared(Apply(s, l), flag, id)
  {
    var r := Apply(s, l);
    forall t: nat | t < |r.threads| ensures PhaseShares(r.threads[t], flag, id) {
      assert PhaseShares(s.threads[t], flag, id);
    }
    assert !l.Store? && !l.Create?;
  }

  /** While a session is held and no other flag is asked for, every acquisition returns that session. */
  lemma {:induction false} CallersShare(s: State, ls: seq<Label>, flag: bool, id: nat)
    requires Shared(s, flag, id) && AllPossible(s, ls) && Held(s, ls, flag, id)
    ensures Shared(Run(s, ls), flag, id)
    decreases |ls|
  {
    if ls != [] {
      SharedStep(s, ls[0], flag, id);
      CallersShare(Apply(s, ls[0]), ls[1..], flag, id);
    }
  }

  // -------------------------------------------------------------------------
  // One flag, one session
  // -------------------------------------------------------------------------

  predicate Wants(p: Phase, flag: bool) {
    p.Away? || p.flag == flag
  }

  /** With one flag asked for, a live session is in the cache or about to be. */
  predicate Unforgotten(s: State, flag: bool) {
    && (forall t: nat | t < |s.threads| :: Wants(s.threads[t], flag))
    && (forall id: nat | id < |s.sessions| :: s.sessions[id].flag == flag)
    && (forall id: nat | id < |s.sessions| && Live(s, id) ::
          s.cache == Some(id) || exists t: nat | t < |s.threads| :: s.threads[t] == Storing(flag, id))
  }

  predicate CallsFor(ls: seq<Label>, flag: bool) {
    forall l | l in ls && l.Call? :: l.flag == flag
  }

  lemma {:induction false} UnforgottenStep(s: State, l: Label, flag: bool)
    requires Good(s) && Unforgotten(s, flag) && Possible(s, l) && (l.Call? ==> l.flag == flag)
    ensures Unforgotten(Apply(s, l), flag)
  {
    var r := Apply(s, l);
    forall t: nat | t < |r.threads| ensures Wants(r.threads[t], flag) {
      assert Wants(s.threads[t], flag);
    }
    forall id: nat | id < |r.sessions| && Live(r, id)
      ensures r.cache == Some(id) || exists t: nat | t < |r.threads| :: r.threads[t] == Storing(flag, id)
    {
      if l.Create? && id == |s.sessions| {
        assert r.threads[l.t] == Storing(flag, id);
      } else {
        if !Live(s, id) {
          DeadStaysDead(s, l, id);
        }
        LiveIsKept(s, l, flag, id);
      }
    }
  }

  /** A live session is not displaced: who would overwrite it has found that it does not serve. */
  lemma {:induction false} LiveIsKept(s: State, l: Label, flag: bool, id: nat)
    requires Good(s) && Unforgotten(s, flag) && Possible(s, l) && id < |s.sessions| && Live(s, id)
    ensures var r := Apply(s, l);
      r.cache == Some(id) || exists t: nat | t < |r.threads| :: r.threads[t] == Storing(flag, id)
  {
    var r := Apply(s, l);
    if s.cache != Some(id) {
      var t: nat :| t < |s.threads| && s.threads[t] == Storing(flag, id);
      assert (l.Store? && l.t == t) || r.threads[t] == Storing(flag, id);
    } else if l.Store? {
      StoreFindsOther(s, l, flag, id);
    }
  }

  lemma {:induction false} StoreFindsOther(s: State, l: Label, flag: bool, id: nat)
    requires Good(s) && Unforgotten(s, flag) && Possible(s, l) && l.Store? && id < |s.sessions| && Live(s, id)
    ensures s.cache != Some(id)
  {
    assert Wants(s.threads[l.t], flag);
  }

  lemma {:induction false} UnforgottenRun(s: State, ls: seq<Label>, flag: bool)
    requires Good(s) && Unforgotten(s, flag) && AllPossible(s, ls) && CallsFor(ls, flag)
    ensures Good(Run(s, ls)) && Unforgotten(Run(s, ls), flag)
    decreases |ls|
  {
    if ls != [] {
      GoodStep(s, ls[0]);
      UnforgottenStep(s, ls[0], flag);
      UnforgottenRun(Apply(s, ls[0]), ls[1..], flag);
    }
  }

  /** While all threads ask for one flag, no two sessions live at once. */
  lemma {:induction false} OneFlagOneSession(threads: nat, ls: seq<Label>, flag: bool, i: nat, j: nat)
    requires AllPossible(Start(threads), ls) && CallsFor(ls, flag)
    requires Live(Run(Start(threads), ls), i) && Live(Run(Start(threads), ls), j)
    ensures i == j
  {
    StartIsGood(threads);
    UnforgottenRun(Start(threads), ls, flag);
    var s := Run(Start(threads), ls);
    OnlyOneLives(s, flag, i, j);
  }

  lemma {:induction false} OnlyOneLives(s: State, flag: bool, i: nat, j: nat)
    requires Good(s) && Unforgotten(s, flag) && Live(s, i) && Live(s, j)
    ensures i == j
  {
    forall t: nat | t < |s.threads| && s.threads[t].Storing? ensures !Serves(s, flag) {
      assert Wants(s.threads[t], flag);
    }
  }

  // -------------------------------------------------------------------------
  // Two flags
  // -------------------------------------------------------------------------

  /** A state with one thread, which is away. */
  function Alone(cache: Option<nat>, sessions: seq<Session>): State {
    State([Away], None, cache, sessions)
  }

  /** It has called, found nothing that serves it, created a session and returned. */
  function AfterMiss(s: State, flag: bool): State {
    Alone(Some(|s.sessions|), s.sessions + [Session(flag, 1)])
  }

  lemma {:induction false} RunConcat(s: State, a: seq<Label>, b: seq<Label>)
    requires AllPossible(s, a) && AllPossible(Run(s, a), b)
    ensures AllPossible(s, a + b) && Run(s, a + b) == Run(Run(s, a), b)
    decreases |a|
  {
    if a == [] {
      assert a + b == b;
    } else {
      assert (a + b)[0] == a[0] && (a + b)[1..] == a[1..] + b;
      RunConcat(Apply(s, a[0]), a[1..], b);
    }
  }

  lemma {:induction false} OneStep(s: State, l: Label)
    requires Possible(s, l)
    ensures AllPossible(s, [l]) && Run(s, [l]) == Apply(s, l)
  {
    assert [l][1..] == [];
    assert AllPossible(Apply(s, l), []);
  }

  lemma {:induction false} StepOfRun(s: State, ls: seq<Label>, l: Label)
    requires AllPossible(s, ls) && Possible(Run(s, ls), l)
    ensures AllPossible(s, ls + [l]) && Run(s, ls + [l]) == Apply(Run(s, ls), l)
  {
    OneStep(Run(s, ls), l);
    RunConcat(s, ls, [l]);
  }

  lemma {:induction false} MissAfter(s: State, ls: seq<Label>, flag: bool) returns (more: seq<Label>)
    requires AllPossible(s, ls)
    requires var r := Run(s, ls); r == Alone(r.cache, r.sessions) && WellNamed(r) && !Serves(r, flag)
    ensures AllPossible(s, more) && Run(s, more) == AfterMiss(Run(s, ls), flag)
  {
    more := ls;
    for k := 0 to 8
      invariant AllPossible(s, more) && Run(s, more) == Missing(Run(s, ls), flag, k)
    {
      MissStep(Run(s, ls), flag, k);
      StepOfRun(s, more, MissLabel(flag, k));
      more := more + [MissLabel(flag, k)];
    }
    assert Missing(Run(s, ls), flag, 8) == AfterMiss(Run(s, ls), flag);
  }

  function MissLabel(flag: bool, k: nat): Label {
    match k
    case 0 => Call(0, flag)
    case 1 => FastCheck(0)
    case 2 => Lock(0)
    case 3 => Check(0)
    case 4 => Create(0)
    case 5 => Store(0)
    case 6 => Unlock(0)
    case _ => Return(0)
  }

  function Missing(r: State, flag: bool, k: nat): State {
    var id, more := |r.sessions|, r.sessions + [Session(flag, 0)];
    match k
    case 0 => r
    case 1 => r.(threads := [Fast(flag)])
    case 2 => r.(threads := [Waiting(flag)])
    case 3 => r.(threads := [Recheck(flag)], lock := Some(0))
    case 4 => r.(threads := [Creating(flag)], lock := Some(0))
    case 5 => State([Storing(flag, id)], Some(0), r.cache, more)
    case 6 => State([Leaving(flag, id)], Some(0), Some(id), more)
    case 7 => State([Returned(flag, id)], None, Some(id), more)
    case _ => AfterMiss(r, flag)
  }

  lemma {:induction false} MissStep(r: State, flag: bool, k: nat)
    requires k < 8 && r == Alone(r.cache, r.sessions) && WellNamed(r) && !Serves(r, flag)
    ensures Possible(Missing(r, flag, k), MissLabel(flag, k))
    ensures Apply(Missing(r, flag, k), MissLabel(flag, k)) == Missing(r, flag, k + 1)
  {
    if k < 4 {
      Looking(r, flag, k);
    } else {
      Making(r, flag, k);
    }
  }

  lemma {:induction false} Looking(r: State, flag: bool, k: nat)
    requires k < 4 && r == Alone(r.cache, r.sessions) && WellNamed(r) && !Serves(r, flag)
    ensures Possible(Missing(r, flag, k), MissLabel(flag, k))
    ensures Apply(Missing(r, flag, k), MissLabel(flag, k)) == Missing(r, flag, k + 1)
  {
    if r.cache.Some? {
      assert Live(Missing(r, flag, k), r.cache.value) == Live(r, r.cache.value);
    }
  }

  lemma {:induction false} Making(r: State, flag: bool, k: nat)
    requires 4 <= k < 8 && r == Alone(r.cache, r.sessions)
    ensures Possible(Missing(r, flag, k), MissLabel(flag, k))
    ensures Apply(Missing(r, flag, k), MissLabel(flag, k)) == Missing(r, flag, k + 1)
  {
  }

  /**
    With two flags this fails: a session of the other flag takes the cache over, and the
    next caller creates a second session beside the first, which is still in use.
  */
  lemma {:induction false} OtherFlagDuplicates(flag: bool) returns (ls: seq<Label>)
    ensures AllPossible(Start(1), ls)
    ensures var s := Run(Start(1), ls);
      Live(s, 0) && Live(s, 2) && s.sessions[0].flag == s.sessions[2].flag == flag
  {
    var s := Start(1);
    assert Run(s, []) == Alone(None, []);
    var one := MissAfter(s, [], flag);
    var two := MissAfter(s, one, !flag);
    ls := MissAfter(s, two, flag);
  }

  // -------------------------------------------------------------------------
  // When there are two
  // -------------------------------------------------------------------------

  predicate LiveWith(s: State, id: nat, flag: bool) {
    Live(s, id) && s.sessions[id].flag == flag
  }

  /** Two sessions of one flag live. */
  predicate TwoLive(s: State, flag: bool) {
    exists i: nat, j: nat | i < j < |s.sessions| :: LiveWith(s, i, flag) && LiveWith(s, j, flag)
  }

  predicate EverTwo(s: State, ls: seq<Label>, flag: bool)
    requires AllPossible(s, ls)
    decreases |ls|
  {
    TwoLive(s, flag) || (ls != [] && EverTwo(Apply(s, ls[0]), ls[1..], flag))
  }

  /** A session is created while one of its flag lives that the cache no longer holds. */
  predicate CreatesBeside(s: State, l: Label, flag: bool)
    requires Possible(s, l)
  {
    l.Create? && s.threads[l.t].flag == flag &&
    exists id: nat | id < |s.sessions| :: LiveWith(s, id, flag) && s.cache != Some(id)
  }

  predicate EverCreatesBeside(s: State, ls: seq<Label>, flag: bool)
    requires AllPossible(s, ls)
    decreases |ls|
  {
    ls != [] && (CreatesBeside(s, ls[0], flag) || EverCreatesBeside(Apply(s, ls[0]), ls[1..], flag))
  }

  lemma {:induction false} WasLive(s: State, l: Label, id: nat, flag: bool)
    requires Possible(s, l) && id < |s.sessions| && LiveWith(Apply(s, l), id, flag)
    ensures LiveWith(s, id, flag)
  {
    SessionsKeepFlags(s, l);
    if !Live(s, id) {
      DeadStaysDead(s, l, id);
    }
  }

  lemma {:induction false} CreateKeepsLive(s: State, l: Label, id: nat)
    requires Possible(s, l) && l.Create? && id < |s.sessions| && Live(s, id)
    ensures Live(Apply(s, l), id)
  {
    var r := Apply(s, l);
    if s.sessions[id].users == 0 {
      var t: nat :| t < |s.threads| && Owns(s.threads[t], id);
      assert Owns(r.threads[t], id);
    }
  }

  lemma {:induction false} CreatedLives(s: State, l: Label)
    requires Possible(s, l) && l.Create?
    ensures LiveWith(Apply(s, l), |s.sessions|, s.threads[l.t].flag)
  {
    assert Owns(Apply(s, l).threads[l.t], |s.sessions|);
  }

  /** A second one comes about by such a creation, and such a creation makes a second one. */
  lemma {:induction false} SecondStep(s: State, l: Label, flag: bool)
    requires Good(s) && Possible(s, l) && !TwoLive(s, flag)
    ensures TwoLive(Apply(s, l), flag) <==> CreatesBeside(s, l, flag)
  {
    var r, n := Apply(s, l), |s.sessions|;
    if TwoLive(r, flag) {
      var i: nat, j: nat :| i < j < |r.sessions| && LiveWith(r, i, flag) && LiveWith(r, j, flag);
      WasLive(s, l, i, flag);
      if j < n {
        WasLive(s, l, j, flag);
      }
      assert l.Create? && j == n;
      assert !Serves(s, s.threads[l.t].flag);
    }
    if CreatesBeside(s, l, flag) {
      var id: nat :| id < n && LiveWith(s, id, flag) && s.cache != Some(id);
      CreateKeepsLive(s, l, id);
      CreatedLives(s, l);
      assert LiveWith(r, id, flag) && LiveWith(r, n, flag);
    }
  }

  lemma {:induction false} TwoLiveExactly(s: State, ls: seq<Label>, flag: bool)
    requires Good(s) && AllPossible(s, ls) && !TwoLive(s, flag)
    ensures EverTwo(s, ls, flag) <==> EverCreatesBeside(s, ls, flag)
    decreases |ls|
  {
    if ls != [] {
      SecondStep(s, ls[0], flag);
      GoodStep(s, ls[0]);
      if !TwoLive(Apply(s, ls[0]), flag) {
        TwoLiveExactly(Apply(s, ls[0]), ls[1..], flag);
      }
    }
  }

  /**
    Over every run of any number of threads: two sessions of one flag ever live at once if and only
    if one is created while another of that flag lives, from which the cache has been taken away.
  */
  lemma {:induction false} DuplicatesExactly(threads: nat, ls: seq<Label>, flag: bool)
    requires AllPossible(Start(threads), ls)
    ensures EverTwo(Start(threads), ls, flag) <==> EverCreatesBeside(Start(threads), ls, flag)
  {
    StartIsGood(threads);
    TwoLiveExactly(Start(threads), ls, flag);
  }
}
