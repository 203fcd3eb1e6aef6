/**
  The counter of connected clients and the loop that waits for it at shutdown, over any
  number of clients in any order.
*/
module ClientCount {
  /** `Active(true)`: its reader task is still reading. */
  datatype Client = Upgrading | Active(reading: bool) | Ended

  datatype Server = Serving | Checking | Sleeping | Exited

  datatype State = State(clients: seq<Client>, count: int, permits: nat, server: Server)

  const INIT := State([], 0, 0, Serving)

  datatype Label =
    | Connect
    | UpgradeFails(i: nat)
    | Upgraded(i: nat)
    | Hangup(i: nat)
    | ToldToStop(i: nat)
    | HandlerEnds(i: nat)
    | Shutdown
    | Check
    | Notified
    | Timer

  predicate Possible(s: State, l: Label) {
    match l
    case Connect => true
    case UpgradeFails(i) => i < |s.clients| && s.clients[i].Upgrading?
    case Upgraded(i) => i < |s.clients| && s.clients[i].Upgrading?
    case Hangup(i) => i < |s.clients| && s.clients[i] == Active(true)
    case ToldToStop(i) => i < |s.clients| && s.clients[i] == Active(true) && s.permits > 0
    case HandlerEnds(i) => i < |s.clients| && s.clients[i].Active?
    case Shutdown => s.server.Serving?
    case Check => s.server.Checking?
    case Notified => s.server.Sleeping?
    case Timer => s.server.Sleeping?
  }

  /** New permits, one for each client counted; a count below zero would not be a number of permits. */
  function Granted(s: State): nat {
    if s.count > 0 then s.permits + s.count else s.permits
  }

  /**
    A reader breaks off when its client hangs up, or goes idle, or for the shutdown, with a
    permit that it gives back as it breaks; so permits only grow.
  */
  function Apply(s: State, l: Label): State
    requires Possible(s, l)
  {
    match l
    case Connect => s.(clients := s.clients + [Upgrading], count := s.count + 1)
    case UpgradeFails(i) => s.(clients := s.clients[i := Ended], count := s.count - 1)
    case Upgraded(i) => s.(clients := s.clients[i := Active(true)])
    case Hangup(i) => s.(clients := s.clients[i := Active(false)])
    case ToldToStop(i) => s.(clients := s.clients[i := Active(false)])
    case HandlerEnds(i) => s.(clients := s.clients[i := Ended], count := s.count - 1)
    case Shutdown => s.(permits := Granted(s), server := Checking)
    case Check => s.(server := if s.count == 0 then Exited else Sleeping)
    case Notified => s.(server := Checking)
    case Timer => s.(permits := Granted(s), server := Checking)
  }

  predicate AllPossible(s: State, ls: seq<Label>)
    decreases |ls|
  {
    ls == [] || (Possible(s, ls[0]) && AllPossible(Apply(s, ls[0]), ls[1..]))
  }

  function Run(s: State, ls: seq<Label>): State
    requires AllPossible(s, ls)
    decreases |ls|
  {
    if ls == [] then s else Run(Apply(s, ls[0]), ls[1..])
  }

  /** The clients that are not over. */
  function LiveCount(clients: seq<Client>): nat {
    if clients == [] then 0
    else LiveCount(clients[..|clients| - 1]) + if clients[|clients| - 1].Ended? then 0 else 1
  }

  lemma {:induction false} LiveCountAfter(clients: seq<Client>, i: nat, c: Client)
    requires i < |clients|
    ensures LiveCount(clients[i := c]) ==
              LiveCount(clients) - (if clients[i].Ended? then 0 else 1) + (if c.Ended? then 0 else 1)
    decreases |clients|
  {
    var k := |clients| - 1;
    if i == k {
      assert clients[i := c][..k] == clients[..k];
    } else {
      assert clients[i := c][..k] == clients[..k][i := c];
      LiveCountAfter(clients[..k], i, c);
    }
  }

  lemma {:induction false} NoneLive(clients: seq<Client>, i: nat)
    requires i < |clients| && LiveCount(clients) == 0
    ensures clients[i].Ended?
    decreases |clients|
  {
    if i < |clients| - 1 {
      NoneLive(clients[..|clients| - 1], i);
      assert clients[i] == clients[..|clients| - 1][i];
    }
  }

  lemma {:induction false} StepCounts(s: State, l: Label)
    requires Possible(s, l) && s.count == LiveCount(s.clients)
    ensures Apply(s, l).count == LiveCount(Apply(s, l).clients)
  {
    match l
    case Connect =>
      assert (s.clients + [Upgrading])[..|s.clients|] == s.clients;
    case UpgradeFails(i) => LiveCountAfter(s.clients, i, Ended);
    case Upgraded(i) => LiveCountAfter(s.clients, i, Active(true));
    case Hangup(i) => LiveCountAfter(s.clients, i, Active(false));
    case ToldToStop(i) => LiveCountAfter(s.clients, i, Active(false));
    case HandlerEnds(i) => LiveCountAfter(s.clients, i, Ended);
    case _ =>
  }

  /** Over every run the counter is the number of clients upgrading or active: each is counted out once. */
  lemma {:induction false} CounterIsLiveClients(s: State, ls: seq<Label>)
    requires AllPossible(s, ls) && s.count == LiveCount(s.clients)
    ensures Run(s, ls).count == LiveCount(Run(s, ls).clients)
    decreases |ls|
  {
    if ls != [] {
      StepCounts(s, ls[0]);
      CounterIsLiveClients(Apply(s, ls[0]), ls[1..]);
    }
  }

  /** The check that ends the waiting is made when no client is live, and any such check ends it. */
  lemma {:induction false} DrainEndsWithNoneLive(ls: seq<Label>)
    requires AllPossible(INIT, ls) && Run(INIT, ls).server.Checking?
    ensures var s := Run(INIT, ls);
      Apply(s, Check).server.Exited? <==> forall i: nat | i < |s.clients| :: s.clients[i].Ended?
  {
    CounterIsLiveClients(INIT, ls);
    var s := Run(INIT, ls);
    if s.count == 0 {
      forall i: nat | i < |s.clients| ensures s.clients[i].Ended? {
        NoneLive(s.clients, i);
      }
    } else {
      SomeLive(s.clients);
    }
  }

  lemma {:induction false} SomeLive(clients: seq<Client>)
    requires LiveCount(clients) > 0
    ensures exists i: nat :: i < |clients| && !clients[i].Ended?
    decreases |clients|
  {
    var k := |clients| - 1;
    if clients[k].Ended? {
      SomeLive(clients[..k]);
      var i: nat :| i < |clients[..k]| && !clients[..k][i].Ended?;
      assert !clients[i].Ended?;
    }
  }

  // -------------------------------------------------------------------------
  // Telling the readers
  // -------------------------------------------------------------------------

  /** Every reader there is can break off for the shutdown. */
  predicate AllTold(s: State) {
    forall i: nat | i < |s.clients| && s.clients[i] == Active(true) :: Possible(s, ToldToStop(i))
  }

  lemma {:induction false} PermitsStay(s: State, ls: seq<Label>)
    requires AllPossible(s, ls)
    ensures Run(s, ls).permits >= s.permits
    decreases |ls|
  {
    if ls != [] {
      PermitsStay(Apply(s, ls[0]), ls[1..]);
    }
  }

  lemma {:induction false} LiveIsCounted(clients: seq<Client>, i: nat)
    requires i < |clients| && !clients[i].Ended?
    ensures LiveCount(clients) > 0
  {
    if LiveCount(clients) == 0 {
      NoneLive(clients, i);
    }
  }

  /**
    When a second has passed with the drain loop asleep and a client live, every reader can
    break off for the shutdown from then on, also those of clients that connect later.
  */
  lemma {:induction false} LateClientsAreTold(ls: seq<Label>, more: seq<Label>, i: nat)
    requires AllPossible(INIT, ls) && Run(INIT, ls).server.Sleeping?
    requires i < |Run(INIT, ls).clients| && !Run(INIT, ls).clients[i].Ended?
    requires AllPossible(Apply(Run(INIT, ls), Timer), more)
    ensures AllTold(Run(Apply(Run(INIT, ls), Timer), more))
  {
    CounterIsLiveClients(INIT, ls);
    LiveIsCounted(Run(INIT, ls).clients, i);
    PermitsStay(Apply(Run(INIT, ls), Timer), more);
  }

  lemma {:induction false} NoPermitsWhileServing(s: State, ls: seq<Label>)
    requires AllPossible(s, ls) && (s.server.Serving? ==> s.permits == 0)
    ensures Run(s, ls).server.Serving? ==> Run(s, ls).permits == 0
    decreases |ls|
  {
    if ls != [] {
      NoPermitsWhileServing(Apply(s, ls[0]), ls[1..]);
    }
  }

  /** And no reader is told while the server serves. */
  lemma {:induction false} NobodyIsToldEarly(ls: seq<Label>, i: nat)
    requires AllPossible(INIT, ls) && Possible(Run(INIT, ls), ToldToStop(i))
    ensures !Run(INIT, ls).server.Serving?
  {
    NoPermitsWhileServing(INIT, ls);
  }

  /** A client is upgrading or active. */
  predicate SomeoneLive(s: State) {
    exists i: nat | i < |s.clients| :: !s.clients[i].Ended?
  }

  /** The shutdown began, or a second of waiting ended, while a client was live. */
  predicate GrantedToSomeone(s: State, ls: seq<Label>)
    requires AllPossible(s, ls)
    decreases |ls|
  {
    ls != [] &&
      (|| ((ls[0].Shutdown? || ls[0].Timer?) && SomeoneLive(s))
       || GrantedToSomeone(Apply(s, ls[0]), ls[1..]))
  }

  lemma {:induction false} CountIsLive(s: State)
    requires s.count == LiveCount(s.clients)
    ensures s.count > 0 <==> SomeoneLive(s)
  {
    if s.count > 0 {
      SomeLive(s.clients);
    } else {
      forall i: nat | i < |s.clients| ensures s.clients[i].Ended? {
        NoneLive(s.clients, i);
      }
    }
  }

  lemma {:induction false} PermitsComeFromClients(s: State, ls: seq<Label>)
    requires AllPossible(s, ls) && s.count == LiveCount(s.clients)
    ensures Run(s, ls).permits > 0 <==> s.permits > 0 || GrantedToSomeone(s, ls)
    decreases |ls|
  {
    if ls != [] {
      CountIsLive(s);
      StepCounts(s, ls[0]);
      PermitsComeFromClients(Apply(s, ls[0]), ls[1..]);
    }
  }

  predicate SomeoneReads(s: State) {
    exists i: nat | i < |s.clients| :: s.clients[i] == Active(true)
  }

  /**
    Over every run: every reader can break off for the shutdown if and only if the shutdown began,
    or a second of waiting ended, with a client live at that moment; or there is no reader.
  */
  lemma {:induction false} ReadersAreToldExactly(ls: seq<Label>)
    requires AllPossible(INIT, ls)
    ensures AllTold(Run(INIT, ls)) <==> GrantedToSomeone(INIT, ls) || !SomeoneReads(Run(INIT, ls))
  {
    PermitsComeFromClients(INIT, ls);
    var s := Run(INIT, ls);
    if AllTold(s) && SomeoneReads(s) {
      var i: nat :| i < |s.clients| && s.clients[i] == Active(true);
      assert Possible(s, ToldToStop(i));
    }
  }

  /** A shutdown that meets no client grants nothing: the next one is told only after a second. */
  lemma {:induction false} ShutdownOfNobodyGrantsNothing() returns (ls: seq<Label>)
    ensures AllPossible(INIT, ls) && Run(INIT, ls).server.Sleeping? && !AllTold(Run(INIT, ls))
  {
    ls := [Shutdown, Connect, Upgraded(0), Check];
    var s1 := Apply(INIT, Shutdown);
    var s2 := Apply(s1, Connect);
    var s3 := Apply(s2, Upgraded(0));
    var s4 := Apply(s3, Check);
    assert ls[1..] == [Connect, Upgraded(0), Check] && ls[1..][1..] == [Upgraded(0), Check];
    assert ls[1..][1..][1..] == [Check] && ls[1..][1..][1..][1..] == [];
    assert AllPossible(s3, [Check]) && Run(s3, [Check]) == s4;
    assert AllPossible(s2, ls[1..][1..]) && Run(s2, ls[1..][1..]) == s4;
    assert AllPossible(s1, ls[1..]) && Run(s1, ls[1..]) == s4;
    assert s4.clients[0] == Active(true) && !Possible(s4, ToldToStop(0));
  }
}
