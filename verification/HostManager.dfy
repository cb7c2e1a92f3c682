/** Shared SSH connections: one client per host, counted references, a timer for idle clients. */
module HostManagers {
  import opened Runs
  import opened Wrappers

  // ----- The protocol as a state machine -----

  /** A managed client: its identity, its count, and whether a timer is set and the connection alive. */
  datatype Entry = Entry(uid: nat, refCount: int, timerSet: bool, connected: bool)

  /** `held` counts acquisitions not yet released; `pending` are the timers that may still fire, which
    includes those stopped too late. */
  datatype State = State(
    clients: map<string, Entry>, held: map<string, nat>, pending: set<(string, nat)>, nextUid: nat)

  const START := State(map[], map[], {}, 0)

  datatype ConnectOutcome = NoConfig | NoSecret | ConnectFailed | ConnectOk

  datatype Event =
    | Acquire(host: string, outcome: ConnectOutcome)
    | Release(host: string)
    | TimerFires(host: string, uid: nat)
    | Disconnect(host: string)
    | Reconnect(host: string)
    | CloseAll

  function Held(s: State, host: string): nat {
    if host in s.held then s.held[host] else 0
  }

  /** Releases are matched with acquisitions; only a timer that was set can fire. */
  predicate Enabled(s: State, e: Event) {
    match e
    case Release(host) => Held(s, host) > 0
    case TimerFires(host, uid) => (host, uid) in s.pending
    case _ => true
  }

  function Apply(s: State, e: Event): State
    requires Enabled(s, e)
  {
    match e
    case Acquire(host, outcome) =>
      if host in s.clients && s.clients[host].connected then
        var mc := s.clients[host];
        s.(clients := s.clients[host := mc.(refCount := mc.refCount + 1, timerSet := false)],
           held := s.held[host := Held(s, host) + 1])
      else if outcome.ConnectOk? then
        s.(clients := s.clients[host := Entry(s.nextUid, 1, false, true)],
           held := s.held[host := Held(s, host) + 1],
           nextUid := s.nextUid + 1)
      else
        s.(clients := s.clients - {host})
    case Release(host) =>
      var t := s.(held := s.held[host := Held(s, host) - 1]);
      if host !in s.clients then t
      else
        var mc := s.clients[host].(refCount := s.clients[host].refCount - 1);
        if mc.refCount <= 0 then
          t.(clients := s.clients[host := mc.(timerSet := true)], pending := s.pending + {(host, mc.uid)})
        else
          t.(clients := s.clients[host := mc])
    case TimerFires(host, uid) =>
      var t := s.(pending := s.pending - {(host, uid)});
      if host in s.clients && s.clients[host].uid == uid && s.clients[host].refCount <= 0 then
        t.(clients := s.clients - {host})
      else t
    case Disconnect(host) =>
      if host in s.clients then s.(clients := s.clients[host := s.clients[host].(connected := false)]) else s
    case Reconnect(host) =>
      if host in s.clients then s.(clients := s.clients[host := s.clients[host].(connected := true)]) else s
    case CloseAll => s.(clients := map[])
  }

  lemma AcquireAlive(s: State, host: string, outcome: ConnectOutcome)
    requires host in s.clients && s.clients[host].connected
    ensures var mc, t := s.clients[host], Apply(s, Acquire(host, outcome));
      && t.clients == s.clients[host := Entry(mc.uid, mc.refCount + 1, false, true)]
      && t.pending == s.pending && t.nextUid == s.nextUid
  {
  }

  lemma AcquireAnew(s: State, host: string, outcome: ConnectOutcome)
    requires host in s.clients ==> !s.clients[host].connected
    ensures var t := Apply(s, Acquire(host, outcome));
      && t.pending == s.pending
      && (if outcome.ConnectOk? then
            t.clients == s.clients[host := Entry(s.nextUid, 1, false, true)] && t.nextUid == s.nextUid + 1
          else
            t.clients == s.clients - {host} && t.nextUid == s.nextUid)
  {
  }

  lemma Released(s: State, host: string)
    requires Enabled(s, Release(host))
    ensures var t := Apply(s, Release(host));
      && t.nextUid == s.nextUid
      && (if host in s.clients then
            var mc := s.clients[host];
            && t.clients ==
               s.clients[host := mc.(refCount := mc.refCount - 1, timerSet := mc.timerSet || mc.refCount <= 1)]
            && t.pending == (if mc.refCount <= 1 then s.pending + {(host, mc.uid)} else s.pending)
          else
            t.clients == s.clients && t.pending == s.pending)
  {
  }

  /** The count of every client is the number of its unreleased acquisitions; no client, none held. */
  ghost predicate Accounted(s: State) {
    forall host ::
      if host in s.clients then s.clients[host].refCount == Held(s, host) else Held(s, host) == 0
  }

  /** A client that nobody holds has a timer that is set and not stopped. */
  ghost predicate IdleIsTimed(s: State) {
    forall host | host in s.clients && s.clients[host].refCount <= 0 ::
      s.clients[host].timerSet && (host, s.clients[host].uid) in s.pending
  }

  /** The steps that forget a client while somebody holds it. */
  predicate ForgetsHeld(s: State, e: Event) {
    match e
    case Acquire(host, _) => host in s.clients && !s.clients[host].connected && Held(s, host) > 0
    case CloseAll => exists host | host in s.clients :: Held(s, host) > 0
    case _ => false
  }

  /** A step keeps the account exactly unless it forgets a held client. */
  lemma AccountKeptIff(s: State, e: Event)
    requires Accounted(s) && Enabled(s, e)
    ensures Accounted(Apply(s, e)) <==> !ForgetsHeld(s, e)
  {
    var t := Apply(s, e);
    match e
    case Acquire(host, outcome) =>
      assert forall h | h != host :: (h in t.clients <==> h in s.clients) && Held(t, h) == Held(s, h);
      if ForgetsHeld(s, e) {
        assert host in t.clients ==> t.clients[host].refCount == 1 && Held(t, host) == Held(s, host) + 1;
      }
    case Release(host) =>
      assert forall h | h != host :: (h in t.clients <==> h in s.clients) && Held(t, h) == Held(s, h);
    case TimerFires(host, uid) =>
    case Disconnect(host) =>
    case Reconnect(host) =>
    case CloseAll =>
      if h :| h in s.clients && Held(s, h) > 0 { assert Held(t, h) > 0 && h !in t.clients; }
  }

  lemma IdleStaysTimed(s: State, e: Event)
    requires Accounted(s) && IdleIsTimed(s) && Enabled(s, e)
    ensures IdleIsTimed(Apply(s, e))
  {
  }

  /** Whether this event closes a client somebody holds. */
  predicate ClosesHeld(s: State, e: Event)
    requires Enabled(s, e)
  {
    exists host | host in s.clients :: e.TimerFires? && host !in Apply(s, e).clients && Held(s, host) > 0
  }

  lemma TimersSpareHeldClients(s: State, e: Event)
    requires Accounted(s) && Enabled(s, e)
    ensures !ClosesHeld(s, e)
  {
  }

  predicate StepTo(s: State, e: Event, t: State) { Enabled(s, e) && t == Apply(s, e) }

  ghost predicate Run(states: seq<State>, events: seq<Event>) { IsRun(StepTo, states, events) }

  /** In every interleaving of acquisitions, matched releases, late timers and reconnects in which no held
    client is forgotten: counts are exact, idle clients are timed, and no timer, however late, closes a
    client that is held. */
  lemma {:induction false} RunsStayAccounted(states: seq<State>, events: seq<Event>, i: nat)
    requires Run(states, events) && states[0] == START && i < |states|
    requires forall k | 0 <= k < i :: !ForgetsHeld(states[k], events[k])
    ensures Accounted(states[i]) && IdleIsTimed(states[i])
    ensures i < |events| ==> Enabled(states[i], events[i]) && !ClosesHeld(states[i], events[i])
  {
    hide Accounted, IdleIsTimed;
    if i == 0 {
      StartAccounted();
    } else {
      RunsStayAccounted(states, events, i - 1);
      assert StepAt(StepTo, states, events, i - 1);
      AccountKeptIff(states[i - 1], events[i - 1]);
      IdleStaysTimed(states[i - 1], events[i - 1]);
    }
    if i < |events| {
      assert StepAt(StepTo, states, events, i);
      TimersSpareHeldClients(states[i], events[i]);
    }
  }

  lemma StartAccounted()
    ensures Accounted(START) && IdleIsTimed(START)
  {
  }

  /** The first forgotten held client is where the account breaks, and only there. */
  lemma {:induction false} AccountBreaksWhereForgotten(states: seq<State>, events: seq<Event>, i: nat)
    requires Run(states, events) && states[0] == START && i < |events|
    requires forall k | 0 <= k < i :: !ForgetsHeld(states[k], events[k])
    ensures Accounted(states[i + 1]) <==> !ForgetsHeld(states[i], events[i])
  {
    hide Accounted, IdleIsTimed, ForgetsHeld;
    RunsStayAccounted(states, events, i);
    assert StepAt(StepTo, states, events, i);
    AccountKeptIff(states[i], events[i]);
  }

  // ----- Who gives clients back -----

  predicate Acquires(s: State, e: Event, host: string) {
    e.Acquire? && e.host == host && (e.outcome.ConnectOk? || (host in s.clients && s.clients[host].connected))
  }

  /** An acquisition succeeds exactly where there is a live client or a new connection comes up.  Then the host has a
    connected client whose timer is stopped: the live one with one more reference, or a new one with one.  Otherwise
    the host has no client. */
  lemma AcquireGives(s: State, host: string, outcome: ConnectOutcome)
    ensures var t, alive := Apply(s, Acquire(host, outcome)), host in s.clients && s.clients[host].connected;
      && (host in t.clients <==> alive || outcome == ConnectOk)
      && (host in t.clients ==>
          && t.clients[host].connected && !t.clients[host].timerSet
          && t.clients[host].refCount == (if alive then s.clients[host].refCount + 1 else 1)
          && t.clients[host].uid == (if alive then s.clients[host].uid else s.nextUid))
  {
  }

  /** Losing a connection and getting it back changes nothing else about the client. */
  lemma ReconnectGivesBack(s: State, host: string)
    requires host in s.clients
    ensures var t := Apply(s, Disconnect(host)); host in t.clients && !t.clients[host].connected
    ensures s.clients[host].connected ==> Apply(Apply(s, Disconnect(host)), Reconnect(host)) == s
  {
    assert s.clients[host := s.clients[host].(connected := false)][host := s.clients[host]] == s.clients;
  }

  /** Everything but a shutdown is about one host and leaves the clients and the holdings of others alone. */
  lemma OtherHostsUntouched(s: State, e: Event, other: string)
    requires Enabled(s, e) && !e.CloseAll? && e.host != other
    ensures var t := Apply(s, e);
      && Held(t, other) == Held(s, other)
      && (other in t.clients <==> other in s.clients)
      && (other in s.clients ==> t.clients[other] == s.clients[other])
      && forall uid :: (other, uid) in t.pending <==> (other, uid) in s.pending
  {
  }

  /** Successful acquisitions of a host among the first i events, of those that sessions make or of the others. */
  ghost function Acquired(
      states: seq<State>, events: seq<Event>, host: string, sessions: set<nat>, bySessions: bool, i: nat): nat
    requires i <= |events| <= |states|
  {
    if i == 0 then 0
    else
      Acquired(states, events, host, sessions, bySessions, i - 1)
      + (if Acquires(states[i - 1], events[i - 1], host) && (i - 1 in sessions <==> bySessions) then 1 else 0)
  }

  ghost function Given(events: seq<Event>, host: string, i: nat): nat
    requires i <= |events|
  {
    if i == 0 then 0 else Given(events, host, i - 1) + (if events[i - 1] == Release(host) then 1 else 0)
  }

  lemma HeldAfter(s: State, e: Event, host: string)
    requires Enabled(s, e)
    ensures Held(Apply(s, e), host)
         == Held(s, host) + (if Acquires(s, e, host) then 1 else 0) - (if e == Release(host) then 1 else 0)
  {
  }

  /** What is held is what has been acquired and not given back. */
  lemma {:induction false} HeldIsAcquired(
      states: seq<State>, events: seq<Event>, host: string, sessions: set<nat>, i: nat)
    requires Run(states, events) && states[0] == START && i <= |events|
    ensures Held(states[i], host) == Acquired(states, events, host, sessions, true, i)
                                     + Acquired(states, events, host, sessions, false, i) - Given(events, host, i)
  {
    hide Apply, Enabled, Acquires;
    if i > 0 {
      HeldIsAcquired(states, events, host, sessions, i - 1);
      assert StepAt(StepTo, states, events, i - 1);
      HeldAfter(states[i - 1], events[i - 1], host);
    }
  }

  /** Creating or opening a remote session acquires the client of its host, and nothing gives that back; everybody
    else gives back at most what they acquired.  So once a session has done so, a host has a client that counts at
    least these acquisitions, whatever becomes of the sessions: it is never idle, and no timer closes it. */
  lemma SessionsKeepHostsBusy(states: seq<State>, events: seq<Event>, host: string, sessions: set<nat>, i: nat)
    requires Run(states, events) && states[0] == START && i <= |events|
    requires forall k | 0 <= k < i :: !ForgetsHeld(states[k], events[k])
    requires Given(events, host, i) <= Acquired(states, events, host, sessions, false, i)
    requires Acquired(states, events, host, sessions, true, i) > 0
    ensures host in states[i].clients
    ensures states[i].clients[host].refCount >= Acquired(states, events, host, sessions, true, i) > 0
  {
    hide Run, ForgetsHeld, IdleIsTimed, Enabled;
    RunHasStates(states, events);
    RunsStayAccounted(states, events, i);
    HeldIsAcquired(states, events, host, sessions, i);
  }

  lemma RunHasStates(states: seq<State>, events: seq<Event>)
    requires Run(states, events)
    ensures |states| == |events| + 1
  {
  }

  ghost predicate Reachable(s: State) { Runs.Reachable(StepTo, START, s) }

  lemma Reached(s: State, e: Event)
    requires Reachable(s) && Enabled(s, e)
    ensures Reachable(Apply(s, e))
  {
    Runs.StepIsReachable(StepTo, START, s, e, Apply(s, e));
  }

  /** With a dead client discarded while held, a matched release later closes the new client under its
    holder. */
  lemma DiscardedClientBreaksTheCount()
    ensures exists s: State, e ::
      Reachable(s) && Enabled(s, e) && e.TimerFires? && ClosesHeld(s, e)
  {
    Runs.StartIsReachable<State, Event>(StepTo, START);
    hide Reachable;
    var s1 := Apply(START, Acquire("h", ConnectOk));
    Reached(START, Acquire("h", ConnectOk));
    var s2 := Apply(s1, Disconnect("h"));
    Reached(s1, Disconnect("h"));
    var s3 := Apply(s2, Acquire("h", ConnectOk));
    Reached(s2, Acquire("h", ConnectOk));
    assert Held(s3, "h") == 2 && s3.clients["h"].refCount == 1 && s3.clients["h"].uid == 1;
    var s4 := Apply(s3, Release("h"));
    Reached(s3, Release("h"));
    var e := TimerFires("h", 1);
    assert Enabled(s4, e) && Held(s4, "h") == 1 && s4.clients["h"].refCount == 0;
    assert "h" in s4.clients && "h" !in Apply(s4, e).clients;
    assert ClosesHeld(s4, e);
  }

  // ----- The manager object -----

  class ManagedClient {
    const host: string
    const uid: nat
    var refCount: int
    var timerSet: bool
    var connected: bool

    constructor (host: string, uid: nat)
      ensures this.host == host && this.uid == uid && refCount == 1 && !timerSet && connected
    {
      this.host, this.uid, refCount, timerSet, connected := host, uid, 1, false, true;
    }

    ghost function Value(): Entry reads this { Entry(uid, refCount, timerSet, connected) }
  }

  class HostManager {
    var clients: map<string, ManagedClient>
    var nextUid: nat
    ghost var state: State
    ghost var created: set<ManagedClient>        // every client ever created
    ghost var issued: seq<ManagedClient>         // the same, by identity

    ghost predicate Valid()
      reads this, created
    {
      && nextUid == state.nextUid == |issued|
      && clients.Keys == state.clients.Keys
      && (forall host | host in clients ::
            && clients[host] in created && clients[host].host == host
            && clients[host].Value() == state.clients[host])
      && (forall mc | mc in created :: mc.uid < |issued| && issued[mc.uid] == mc)
    }

    constructor ()
      ensures Valid() && state == START
    {
      clients, nextUid, state, created, issued := map[], 0, START, {}, [];
    }

    /** Hands out the client of a host, connecting if there is none or it is dead. */
    method GetClient(host: string, outcome: ConnectOutcome) returns (r: Option<ManagedClient>)
      requires Valid()
      modifies this, created
      ensures Valid() && state == Apply(old(state), Acquire(host, outcome)) && fresh(created - old(created))
      ensures r.Some? <==> (host in old(clients) && old(clients[host].connected)) || outcome.ConnectOk?
      ensures r.Some? ==> host in clients && r.value == clients[host] && r.value.connected
      ensures r.None? ==> host !in clients
    {
      hide Apply, Accounted;
      if host in clients && clients[host].connected {
        var mc := Share(host, outcome);
        return Some(mc);
      }
      if outcome.ConnectOk? {
        var mc := Adopt(host);
        return Some(mc);
      }
      Forget(host, outcome);
      return None;
    }

    /** A live client gets one more reference, and its timer is stopped. */
    method Share(host: string, outcome: ConnectOutcome) returns (mc: ManagedClient)
      requires Valid() && host in clients && clients[host].connected
      modifies this`state, clients[host]
      ensures Valid() && state == Apply(old(state), Acquire(host, outcome))
      ensures mc == clients[host] && mc.connected
    {
      hide Apply, Accounted;
      AcquireAlive(state, host, outcome);
      state := Apply(state, Acquire(host, outcome));
      mc := clients[host];
      mc.refCount := mc.refCount + 1;
      if mc.timerSet { mc.timerSet := false; }
    }

    /** Connecting failed: a dead client, if there was one, is gone. */
    method Forget(host: string, outcome: ConnectOutcome)
      requires Valid() && !outcome.ConnectOk? && (host in clients ==> !clients[host].connected)
      modifies this`state, this`clients
      ensures Valid() && state == Apply(old(state), Acquire(host, outcome))
      ensures host !in clients
    {
      hide Apply, Accounted;
      AcquireAnew(state, host, outcome);
      state := Apply(state, Acquire(host, outcome));
      clients := clients - {host};
    }

    /** Connecting succeeded: a new client with one reference replaces a dead one, if there was one. */
    method Adopt(host: string) returns (mc: ManagedClient)
      requires Valid() && (host in clients ==> !clients[host].connected)
      modifies this
      ensures Valid() && fresh(created - old(created))
      ensures state == Apply(old(state), Acquire(host, ConnectOk))
      ensures host in clients && mc == clients[host] && mc.connected
    {
      hide Apply, HostManager.Valid;
      mc := new ManagedClient(host, nextUid);
      Register(mc);
    }

    /** A new client is known from now on, under its own identity. */
    method Register(mc: ManagedClient)
      requires Valid() && mc !in created && mc.uid == nextUid
      requires mc.refCount == 1 && !mc.timerSet && mc.connected
      requires mc.host in clients ==> !clients[mc.host].connected
      modifies this
      ensures Valid() && created == old(created) + {mc}
      ensures state == Apply(old(state), Acquire(mc.host, ConnectOk))
      ensures mc.host in clients && mc == clients[mc.host]
    {
      hide Apply, Accounted;
      AcquireAnew(state, mc.host, ConnectOk);
      state := Apply(state, Acquire(mc.host, ConnectOk));
      created := created + {mc};
      issued := issued + [mc];
      clients := clients[mc.host := mc];
      nextUid := nextUid + 1;
    }

    method ReleaseClient(host: string)
      requires Valid() && Held(state, host) > 0
      modifies this, created
      ensures Valid() && state == Apply(old(state), Release(host))
      ensures clients == old(clients)
    {
      hide Apply, Accounted;
      Released(state, host);
      state := Apply(state, Release(host));
      if host !in clients { return; }
      var mc := clients[host];
      mc.refCount := mc.refCount - 1;
      if mc.refCount <= 0 { mc.timerSet := true; }
    }

    /** The timer callback; `mc` is the client it was set for, which may have been replaced since. */
    method IdleCallback(host: string, mc: ManagedClient)
      requires Valid() && mc in created && (host, mc.uid) in state.pending
      modifies this, created
      ensures Valid() && state == Apply(old(state), TimerFires(host, mc.uid))
      ensures old(Accounted(state)) && host in old(clients) && Held(old(state), host) > 0 ==>
        host in clients && clients[host].connected == old(clients[host].connected)
    {
      state := Apply(state, TimerFires(host, mc.uid));
      if host in clients && clients[host] == mc && mc.refCount <= 0 {
        mc.connected := false;
        clients := clients - {host};
      }
    }

    /** A successful reconnect swaps the connection and keeps the entry with its count. */
    method Reconnected(host: string)
      requires Valid()
      modifies this, created
      ensures Valid() && state == Apply(old(state), Reconnect(host))
      ensures clients == old(clients)
    {
      state := Apply(state, Reconnect(host));
      if host in clients { clients[host].connected := true; }
    }
  }
}
