/** What holds over every run of session calls. */
module SessionRuns {
  import opened Wrappers
  import opened Sessions

  /** The program starts with the sessions that were stored, all of them paused. */
  function Initial(stored: map<string, Stored>): State { Restarted(State(map[], {}, stored)) }

  function Run(stored: map<string, Stored>, calls: seq<Call>): State {
    if calls == [] then Initial(stored) else Apply(Run(stored, calls[..|calls| - 1]), calls[|calls| - 1])
  }

  lemma RunStep(stored: map<string, Stored>, calls: seq<Call>, c: Call)
    ensures Run(stored, calls + [c]) == Apply(Run(stored, calls), c)
  {
    hide Apply;
    assert (calls + [c])[..|calls|] == calls;
  }

  /** No call of the run gives the title of an indexed session to a remote one. */
  ghost predicate Orderly(stored: map<string, Stored>, calls: seq<Call>) {
    forall k | 0 <= k < |calls| :: !TakesOver(Run(stored, calls[..k]), calls[k])
  }

  lemma {:induction false} RunsStayGood(stored: map<string, Stored>, calls: seq<Call>)
    requires Orderly(stored, calls)
    ensures Good(Run(stored, calls))
  {
    hide Good, Apply, Restarted, TakesOver;
    if calls == [] {
      RestartIsGood(State(map[], {}, stored));
    } else {
      var k := |calls| - 1;
      OrderlyBefore(stored, calls);
      RunsStayGood(stored, calls[..k]);
      CallKeepsGoodIff(Run(stored, calls[..k]), calls[k]);
    }
  }

  lemma OrderlyBefore(stored: map<string, Stored>, calls: seq<Call>)
    requires Orderly(stored, calls) && calls != []
    ensures Orderly(stored, calls[..|calls| - 1])
  {
    hide Run, TakesOver;
    var before := calls[..|calls| - 1];
    forall k | 0 <= k < |before| ensures !TakesOver(Run(stored, before[..k]), before[k]) {
      assert before[..k] == calls[..k] && before[k] == calls[k];
    }
  }

  /** In every reachable state: an indexer belongs to an existing local session that is not paused, a running
    session has a process, a paused one has been started. */
  lemma ReachableSessions(stored: map<string, Stored>, calls: seq<Call>, id: string)
    requires Orderly(stored, calls)
    ensures var s := Run(stored, calls);
      && (id in s.indexers ==> id in s.instances && s.instances[id].Local() && s.instances[id].status != Paused)
      && (id in s.instances && s.instances[id].status == Running ==> s.instances[id].HasProcess())
      && (id in s.instances && s.instances[id].status == Paused ==> s.instances[id].started)
  {
    hide Run;
    RunsStayGood(stored, calls);
    assert id in Run(stored, calls).instances ==> Sound(id, Run(stored, calls).instances[id]);
  }

  /** A run in which it does: a local session is created and indexed, and a remote one under the same title takes
    its place; the indexer of the one now belongs to the other. */
  lemma TakeoverLeavesIndexer()
    ensures exists calls ::
      var s := Run(map[], calls);
      "a" in s.indexers && "a" in s.instances && !s.instances["a"].Local() && !Good(s)
  {
    hide Written, Run;
    var create, takeover := Create("a", "", true, false, true), Create("a", "host", true, false, true);
    RunStep(map[], [], create);
    RunStep(map[], [] + [create], Index("a"));
    RunStep(map[], [] + [create] + [Index("a")], takeover);
    var s := Run(map[], [] + [create] + [Index("a")] + [takeover]);
    assert Run(map[], [] + [create]).instances["a"] == NewInstance("a", "", true, false);
    assert s.instances["a"] == NewInstance("a", "host", true, false) && "a" in s.indexers;
  }

  // ----- Opening -----

  predicate SpawnWorks(x: Inst, spawn: Spawn) {
    spawn.Spawns? || (spawn.FallsBack? && (spawn.second.Some? || !x.claude))
  }

  predicate HostAnswers(x: Inst, env: OpenEnv) { x.Local() || (env.connected && env.hasProcessManager) }

  lemma ResumeWorksIff(x: Inst, env: ResumeEnv)
    ensures Resumed(x, env).1 <==> x.started && x.status == Paused && WorktreeReady(x, env) && SpawnWorks(x, env.spawn)
  {
  }

  lemma SameAfterViewing(x: Inst, env: ResumeEnv, now: int)
    ensures var y := x.(lastViewed := Some(now));
      (WorktreeReady(y, env) <==> WorktreeReady(x, env)) && (SpawnWorks(y, env.spawn) <==> SpawnWorks(x, env.spawn))
  {
  }

  /** A session that can be resumed by this answer of the world: its branch is not checked out elsewhere, its worktree
    is there or can be set up, and a process comes up, for which a resumed conversation may need a second try. */
  predicate CanResume(inPlace: bool, claude: bool, env: ResumeEnv) {
    && (inPlace || (env.branchCheckedOut == Some(false) && (env.worktreeExists || env.setupOk)))
    && (env.spawn.Spawns? || (env.spawn.FallsBack? && (!claude || env.spawn.second.Some?)))
  }

  /** Opening succeeds exactly when the host answers and the session runs, or is paused and can be resumed; a remote
    session whose process has exited counts as paused.  The answer is the process of a session that is then running:
    the one that was there, or the one just spawned, which is the second where the first was killed. */
  lemma OpenSucceedsIff(s: State, id: string, env: OpenEnv, now: int)
    requires Good(s)
    ensures var (t, answer) := Opened(s, id, env, now);
      && (answer.Some? <==>
          && id in s.instances
          && var x := s.instances[id];
             var dead := x.hostId != "" && env.exited;
             && (x.hostId == "" || (env.connected && env.hasProcessManager))
             && ((x.status == Running && !dead)
                 || ((x.status == Paused || (x.status == Running && dead))
                     && CanResume(x.inPlace, x.claude, env.resume))))
      && (answer.Some? ==>
          && id in t.instances && t.instances[id].status == Running && t.instances[id].pid == answer.value
          && (t.instances[id].hostId == "" ==> id in t.indexers))
      && (answer.Some? ==>
          var x, spawn := s.instances[id], env.resume.spawn;
          answer.value == if x.status == Running && !(x.hostId != "" && env.exited) then x.pid
                          else if spawn.Spawns? then spawn.id
                          else if x.claude then spawn.second.value
                          else spawn.first)
  {
    hide Written, Resumed, WorktreeReady, SpawnWorks;
    if id in s.instances {
      var x := s.instances[id].(lastViewed := Some(now));
      assert Sound(id, x);
      var y := Checked(x, env);
      assert Sound(id, y);
      ResumedIsSound(y, env.resume);
      ResumeAnswers(y, env.resume);
    }
  }

  lemma ResumeAnswers(x: Inst, env: ResumeEnv)
    ensures Resumed(x, env).1 <==> x.started && x.status == Paused && CanResume(x.inPlace, x.claude, env)
    ensures Resumed(x, env).1 ==>
      Resumed(x, env).0.pid == if env.spawn.Spawns? then env.spawn.id
                               else if x.claude then env.spawn.second.value
                               else env.spawn.first
  {
  }

  /** A running remote session whose process has exited, and that cannot be resumed because of its branch or worktree,
    is left paused, without a process and without an answer. */
  lemma DeadIsLeftPaused(s: State, id: string, env: OpenEnv, now: int)
    requires Good(s) && id in s.instances && env.exited && env.connected && env.hasProcessManager
    requires s.instances[id].hostId != "" && s.instances[id].status == Running && !s.instances[id].inPlace
    requires env.resume.branchCheckedOut != Some(false) || !(env.resume.worktreeExists || env.resume.setupOk)
    ensures var (t, answer) := Opened(s, id, env, now);
      && answer.None? && id in t.instances
      && t.instances[id] == s.instances[id].(lastViewed := Some(now), status := Paused, pid := "")
  {
    hide Written;
    assert Sound(id, s.instances[id]);
  }

  /** Calls about a session that is not there are refused and change nothing. */
  lemma UnknownIsRefused(
      s: State, id: string, open: OpenEnv, start: StartEnv, resume: ResumeEnv, killOk: bool, now: int)
    requires id !in s.instances
    ensures Opened(s, id, open, now) == (s, None) && Touched(s, id, now) == s
    ensures StartedSession(s, id, start) == (s, false) && PausedSession(s, id, killOk) == (s, false)
    ensures ResumedSession(s, id, resume) == (s, false) && Killed(s, id) == (s, false)
  {
  }

  /** An indexer runs for a session afterwards exactly if it is a known local one that is not paused. */
  lemma IndexedIff(s: State, id: string)
    ensures id in Indexed(s, id).indexers <==>
      id in s.instances && s.instances[id].hostId == "" && s.instances[id].status != Paused
  {
  }

  // ----- What calls do to each other -----

  /** The session a call is about, if it is about one. */
  function Subject(c: Call): Option<string> {
    match c
    case Create(title, _, _, _, _) => Some(title)
    case Open(id, _, _) => Some(id)
    case Touch(id, _) => Some(id)
    case Start(id, _) => Some(id)
    case Pause(id, _) => Some(id)
    case Resume(id, _) => Some(id)
    case Kill(id) => Some(id)
    case Index(id) => Some(id)
    case StopIndex(id) => Some(id)
    case _ => None
  }

  ghost predicate SameSession(s: State, t: State, id: string) {
    && (id in s.instances <==> id in t.instances)
    && (id in s.instances ==> s.instances[id] == t.instances[id])
    && (id in s.indexers <==> id in t.indexers)
    && (id in s.stored <==> id in t.stored)
    && (id in s.stored ==> s.stored[id] == t.stored[id])
  }

  /** A call about one session leaves every other one alone: itself, its indexer and what is stored of it. */
  lemma OthersUntouched(s: State, c: Call, other: string)
    requires StoreIsCurrent(s) && Subject(c).Some? && other != Subject(c).value
    ensures SameSession(s, Apply(s, c), other)
  {
    hide Written, Opened, Touched, StartedSession, PausedSession, ResumedSession, StoreIsCurrent;
    CallKeepsStore(s, c);
    var t := Apply(s, c);
    assert (other in s.instances <==> other in t.instances)
        && (other in s.instances ==> s.instances[other] == t.instances[other])
        && (other in s.indexers <==> other in t.indexers) by {
      match c
      case Open(id, env, now) => OpenedOthers(s, id, env, now, other);
      case Touch(id, now) => TouchedOthers(s, id, now, other);
      case Start(id, env) => StartedOthers(s, id, env, other);
      case Pause(id, killOk) => PausedOthers(s, id, killOk, other);
      case Resume(id, env) => ResumedOthers(s, id, env, other);
      case _ =>
    }
    StoredIff(s, other);
    StoredIff(t, other);
  }

  lemma StoredIff(s: State, id: string)
    requires StoreIsCurrent(s)
    ensures id in s.stored <==> id in s.instances && s.instances[id].started
    ensures id in s.stored ==> s.stored[id] == Image(s.instances[id])
  {
  }

  ghost predicate SameLive(s: State, t: State, id: string) {
    && (id in s.instances <==> id in t.instances)
    && (id in s.instances ==> s.instances[id] == t.instances[id])
    && (id in s.indexers <==> id in t.indexers)
  }

  lemma OpenedOthers(s: State, id: string, env: OpenEnv, now: int, other: string)
    requires other != id
    ensures SameLive(s, Opened(s, id, env, now).0, other)
  {
    hide Written, Resumed, Checked;
  }

  lemma TouchedOthers(s: State, id: string, now: int, other: string)
    requires other != id
    ensures SameLive(s, Touched(s, id, now), other)
  {
  }

  lemma StartedOthers(s: State, id: string, env: StartEnv, other: string)
    requires other != id
    ensures SameLive(s, StartedSession(s, id, env).0, other)
  {
    hide Written, Started;
  }

  lemma PausedOthers(s: State, id: string, killOk: bool, other: string)
    requires other != id
    ensures SameLive(s, PausedSession(s, id, killOk).0, other)
  {
    hide Written, PausedBy;
  }

  lemma ResumedOthers(s: State, id: string, env: ResumeEnv, other: string)
    requires other != id
    ensures SameLive(s, ResumedSession(s, id, env).0, other)
  {
    hide Written, Resumed;
  }

  /** Creating a session under an unused title and killing it again changes nothing. */
  lemma CreateThenKill(s: State, title: string, hostId: string, inPlace: bool, claude: bool, hostOk: bool)
    requires Good(s) && StoreIsCurrent(s) && title !in s.instances && (hostId == "" || hostOk)
    ensures Killed(Created(s, title, hostId, inPlace, claude, hostOk), title) == (s, true)
  {
    hide Written;
    var t := Created(s, title, hostId, inPlace, claude, hostOk);
    assert t.instances - {title} == s.instances;
    assert t.indexers - {title} == s.indexers;
  }

  ghost predicate Gone(s: State, id: string) { id !in s.instances && id !in s.indexers && id !in s.stored }

  /** Killing a session, whether it runs, is paused or has never been started, removes it, its indexer and what is
    stored of it, and leaves every other session alone. */
  lemma KillRemoves(s: State, id: string)
    requires StoreIsCurrent(s) && id in s.instances
    ensures var (t, ok) := Killed(s, id); ok && Gone(t, id)
    ensures forall other | other != id :: SameSession(s, Killed(s, id).0, other)
  {
    hide Killed;
    KilledIs(s, id);
    forall other | other != id ensures SameSession(s, Killed(s, id).0, other) { OthersUntouched(s, Kill(id), other); }
  }

  lemma KilledIs(s: State, id: string)
    requires id in s.instances
    ensures Killed(s, id).1 && Gone(Killed(s, id).0, id)
  {
  }

  lemma GoneStaysGone(s: State, id: string, c: Call)
    requires Gone(s, id) && StoreIsCurrent(s) && !(c.Create? && c.title == id)
    ensures Gone(Apply(s, c), id)
  {
    hide Written, Opened, StartedSession, ResumedSession, AllPaused, AllMarked, StoreIsCurrent;
    CallKeepsStore(s, c);
    assert id !in Apply(s, c).instances && id !in Apply(s, c).indexers by {
      match c
      case Open(other, env, now) =>
        if other == id { OpenedNothing(s, id, env, now); } else { OpenedOthers(s, other, env, now, id); }
      case Start(other, env) =>
        if other == id { StartedNothing(s, id, env); } else { StartedOthers(s, other, env, id); }
      case Resume(other, env) =>
        if other == id { ResumedNothing(s, id, env); } else { ResumedOthers(s, other, env, id); }
      case Poll(prompts, unkillable, now, timeout) =>
        PassAddsNothing(s, prompts, now, PollChooses(s, now, timeout), unkillable, id);
      case CheckIdle(prompts, unkillable, now, timeout) =>
        PassAddsNothing(s, prompts, now, CheckChooses(s, prompts, now, timeout), unkillable, id);
      case _ =>
    }
    StoredIff(Apply(s, c), id);
  }

  lemma OpenedNothing(s: State, id: string, env: OpenEnv, now: int)
    requires id !in s.instances
    ensures Opened(s, id, env, now).0 == s
  {
  }

  lemma StartedNothing(s: State, id: string, env: StartEnv)
    requires id !in s.instances
    ensures StartedSession(s, id, env).0 == s
  {
  }

  lemma ResumedNothing(s: State, id: string, env: ResumeEnv)
    requires id !in s.instances
    ensures ResumedSession(s, id, env).0 == s
  {
  }

  lemma PassAddsNothing(s: State, prompts: set<string>, now: int, chosen: set<string>, unkillable: set<string>,
                        id: string)
    requires id !in s.instances && id !in s.indexers
    ensures var t := AllPaused(AllMarked(s, prompts, now), chosen, unkillable);
      id !in t.instances && id !in t.indexers
  {
    hide Written, Marked, PausedBy;
  }

  /** In every run, a session that was there and has been killed stays away until one is created under its title,
    over restarts too. */
  lemma {:induction false} KilledStaysAway(
      stored: map<string, Stored>, calls: seq<Call>, id: string, later: seq<Call>)
    requires id in Run(stored, calls).instances
    requires forall k | 0 <= k < |later| :: !(later[k].Create? && later[k].title == id)
    ensures Gone(Run(stored, calls + [Kill(id)] + later), id)
  {
    hide Run, Apply, Gone, StoreIsCurrent;
    var all := calls + [Kill(id)] + later;
    if later == [] {
      assert all == calls + [Kill(id)];
      RunStep(stored, calls, Kill(id));
      KillLeavesNothing(Run(stored, calls), id);
    } else {
      var before, c := later[..|later| - 1], later[|later| - 1];
      assert all == calls + [Kill(id)] + before + [c];
      KilledStaysAway(stored, calls, id, before);
      RunsKeepStore(stored, calls + [Kill(id)] + before);
      RunStep(stored, calls + [Kill(id)] + before, c);
      GoneStaysGone(Run(stored, calls + [Kill(id)] + before), id, c);
    }
  }

  lemma KillLeavesNothing(s: State, id: string)
    requires id in s.instances
    ensures Gone(Apply(s, Kill(id)), id)
  {
  }

  /** Creating a session, unless its host cannot be reached, gives a new one that waits to be started, and neither
    indexes nor stores it. */
  lemma CreateMakes(s: State, title: string, hostId: string, inPlace: bool, claude: bool, hostOk: bool)
    requires Good(s) && StoreIsCurrent(s)
    ensures var t := Created(s, title, hostId, inPlace, claude, hostOk);
      if hostId != "" && !hostOk then t == s
      else
        && t.instances.Keys == s.instances.Keys + {title} && t.indexers == s.indexers && title !in t.stored
        && var x := t.instances[title];
           && x.title == title && x.hostId == hostId && x.inPlace == inPlace && x.claude == claude
           && x.status == Ready && !x.started && x.pid == "" && !x.autoPaused
           && x.idleSince == None && x.lastViewed == None
  {
  }

  /** A start that succeeds leaves the session running with the process just spawned, and indexed if local; one that
    fails leaves nothing. */
  lemma StartAllOrNothing(s: State, id: string, env: StartEnv)
    requires Good(s) && StoreIsCurrent(s) && id in s.instances && !s.instances[id].started
    ensures var (t, ok) := StartedSession(s, id, env);
      && (ok <==> id != "" && (s.instances[id].inPlace || (env.worktreeOk && env.setupOk)) && !env.spawn.SpawnFails?)
      && (ok ==>
          && id in t.instances
          && t.instances[id] == s.instances[id].(status := Running, started := true,
                                                 pid := if env.spawn.Spawns? then env.spawn.id else env.spawn.first)
          && (id in t.indexers <==> t.instances[id].hostId == "") && id in t.stored)
      && (!ok ==> id !in t.instances && id !in t.indexers && id !in t.stored)
  {
    assert Sound(id, s.instances[id]);
    assert id in s.indexers ==> s.instances[id].Local();
  }

  /** Starting a session again succeeds and changes nothing. */
  lemma StartAgain(s: State, id: string, env: StartEnv)
    requires id in s.instances && s.instances[id].started
    ensures StartedSession(s, id, env) == (s, true)
  {
  }

  /** Pausing succeeds exactly for a session that has been started and is not paused, unless it is in-place and its
    process cannot be killed; its indexer stops in any case. */
  lemma PauseSucceedsIff(s: State, id: string, killOk: bool)
    requires Good(s) && StoreIsCurrent(s) && id in s.instances
    ensures var x, (t, ok) := s.instances[id], PausedSession(s, id, killOk);
      && (ok <==> x.status == Running && (killOk || !x.inPlace))
      && id in t.instances && t.instances[id] == (if ok then x.(status := Paused, pid := "") else x)
      && t.indexers == s.indexers - {id} && t.stored == s.stored
  {
    hide Written;
    var (y, ok) := PausedBy(s.instances[id], killOk);
    assert Sound(id, s.instances[id]);
    if ok { SameImages(s.instances, s.instances[id := y]); }
  }

  /** Resuming succeeds exactly for a paused session that can be resumed; then it runs, unflagged, with the process
    just spawned.  A resume that fails leaves it paused and flagged as it was. */
  lemma ResumeSucceedsIff(s: State, id: string, env: ResumeEnv)
    requires Good(s) && StoreIsCurrent(s) && id in s.instances
    ensures var x, (t, ok) := s.instances[id], ResumedSession(s, id, env);
      && (ok <==> x.status == Paused && CanResume(x.inPlace, x.claude, env))
      && id in t.instances && t.indexers == s.indexers && t.stored == s.stored
      && (ok ==> t.instances[id] == x.(status := Running, autoPaused := false,
                                       pid := if env.spawn.Spawns? then env.spawn.id
                                              else if x.claude then env.spawn.second.value
                                              else env.spawn.first))
      && (!ok ==> t.instances[id] == x.(pid := t.instances[id].pid))
  {
    hide Written, CanResume;
    assert Sound(id, s.instances[id]);
    var (y, ok) := Resumed(s.instances[id], env);
    ResumeAnswers(s.instances[id], env);
    ResumeFields(s.instances[id], env);
    if ok { SameImages(s.instances, s.instances[id := y.(autoPaused := false)]); }
  }

  lemma ResumeFields(x: Inst, env: ResumeEnv)
    ensures var (y, ok) := Resumed(x, env); y == x.(pid := y.pid, status := if ok then Running else x.status)
  {
  }

  /** Pausing and resuming gives the session back as it was, with another process and without its indexer. */
  lemma PauseThenResume(s: State, id: string, killOk: bool, env: ResumeEnv)
    requires Good(s) && StoreIsCurrent(s) && PausedSession(s, id, killOk).1
    requires ResumedSession(PausedSession(s, id, killOk).0, id, env).1
    ensures var x, t := s.instances[id], ResumedSession(PausedSession(s, id, killOk).0, id, env).0;
      && id in t.instances
      && t.instances[id] == x.(status := Running, pid := t.instances[id].pid, autoPaused := false)
      && t.instances[id].HasProcess()
      && t.indexers == s.indexers - {id} && t.stored == s.stored
  {
    hide Written, PausedBy, Resumed, Sound;
    var x := s.instances[id];
    var y := PausedBy(x, killOk).0;
    PausedAndResumed(x, killOk, env);
    var p := PausedSession(s, id, killOk).0;
    assert p.instances == s.instances[id := y];
    var z := Resumed(y, env).0.(autoPaused := false);
    var t := ResumedSession(p, id, env).0;
    assert t.instances == s.instances[id := z];
    assert t.stored == Written(s.instances) by {
      SameImages(s.instances, t.instances);
      assert t.stored == Written(t.instances);
    }
  }

  lemma PausedAndResumed(x: Inst, killOk: bool, env: ResumeEnv)
    requires PausedBy(x, killOk).1 && Resumed(PausedBy(x, killOk).0, env).1
    ensures var z := Resumed(PausedBy(x, killOk).0, env).0;
      z == x.(status := Running, pid := z.pid) && z.HasProcess()
  {
  }

  // ----- The store -----

  lemma SameImages(before: map<string, Inst>, after: map<string, Inst>)
    requires before.Keys == after.Keys
    requires forall id | id in before ::
      before[id].started == after[id].started && Image(before[id]) == Image(after[id])
    ensures Written(before) == Written(after)
  {
  }

  ghost predicate SameImage(x: Inst, y: Inst) { x.started == y.started && Image(x) == Image(y) }

  lemma PassKeepsImages(s: State, prompts: set<string>, now: int, chosen: set<string>, unkillable: set<string>)
    ensures Written(AllPaused(AllMarked(s, prompts, now), chosen, unkillable).instances) == Written(s.instances)
  {
    hide Written, Marked, PausedBy;
    var m := AllMarked(s, prompts, now);
    var t := AllPaused(m, chosen, unkillable);
    forall id | id in s.instances ensures SameImage(s.instances[id], t.instances[id]) {
      MarkKeepsImage(s.instances[id], prompts, now);
      var x := m.instances[id].(autoPaused := true);
      PauseKeepsImage(x, x.title !in unkillable);
    }
    SameImages(s.instances, t.instances);
  }

  lemma MarkKeepsImage(x: Inst, prompts: set<string>, now: int)
    ensures SameImage(x, Marked(x, prompts, now))
  {
  }

  lemma PauseKeepsImage(x: Inst, killOk: bool)
    ensures SameImage(x, PausedBy(x, killOk).0)
  {
  }

  lemma PutStores(s: State, id: string, x: Inst)
    requires StoreIsCurrent(s) && id in s.instances && SameImage(s.instances[id], x)
    ensures StoreIsCurrent(Put(s, id, x)) && StoreIsCurrent(Save(Put(s, id, x)))
  {
    hide Written;
    SameImages(s.instances, Put(s, id, x).instances);
  }

  lemma OpenKeepsStore(s: State, id: string, env: OpenEnv, now: int)
    requires StoreIsCurrent(s)
    ensures StoreIsCurrent(Opened(s, id, env, now).0)
  {
    hide Written, Save, Put, Resumed, Checked;
    if id in s.instances {
      var x := s.instances[id].(lastViewed := Some(now));
      assert SameImage(s.instances[id], x);
      var y := Checked(x, env);
      CheckKeepsImage(x, env);
      var z := Resumed(y, env.resume).0;
      ResumeKeepsImage(y, env.resume);
      PutStores(s, id, x);
      PutStores(s, id, y);
      PutStores(s, id, z);
    }
  }

  lemma CheckKeepsImage(x: Inst, env: OpenEnv)
    ensures SameImage(x, Checked(x, env))
  {
  }

  lemma ResumeKeepsImage(x: Inst, env: ResumeEnv)
    ensures SameImage(x, Resumed(x, env).0)
  {
  }

  lemma ResumeKeepsStore(s: State, id: string, env: ResumeEnv)
    requires StoreIsCurrent(s)
    ensures StoreIsCurrent(ResumedSession(s, id, env).0)
  {
    hide Written, Save, Put, Resumed;
    if id in s.instances {
      var x := Resumed(s.instances[id], env).0;
      ResumeKeepsImage(s.instances[id], env);
      PutStores(s, id, x);
      PutStores(s, id, x.(autoPaused := false));
    }
  }

  lemma TouchKeepsStore(s: State, id: string, now: int)
    requires StoreIsCurrent(s)
    ensures StoreIsCurrent(Touched(s, id, now))
  {
    hide Written, Put;
    if id in s.instances { PutStores(s, id, s.instances[id].(lastViewed := Some(now))); }
  }

  /** Every call leaves exactly the started sessions in the store. */
  lemma CallKeepsStore(s: State, c: Call)
    requires StoreIsCurrent(s)
    ensures StoreIsCurrent(Apply(s, c))
  {
    hide Written, Opened, ResumedSession, Touched, AllPaused, AllMarked, Started, PausedBy;
    match c
    case Open(id, env, now) => OpenKeepsStore(s, id, env, now);
    case Touch(id, now) => TouchKeepsStore(s, id, now);
    case Resume(id, env) => ResumeKeepsStore(s, id, env);
    case Poll(prompts, unkillable, now, timeout) =>
      PassStores(s, prompts, now, PollChooses(s, now, timeout), unkillable);
    case CheckIdle(prompts, unkillable, now, timeout) =>
      PassStores(s, prompts, now, CheckChooses(s, prompts, now, timeout), unkillable);
    case Restart => RestartStores(s);
    case _ =>
  }

  lemma PassStores(s: State, prompts: set<string>, now: int, chosen: set<string>, unkillable: set<string>)
    requires StoreIsCurrent(s)
    ensures StoreIsCurrent(AllPaused(AllMarked(s, prompts, now), chosen, unkillable))
  {
    hide Written, PausedBy, Marked;
    PassKeepsImages(s, prompts, now, chosen, unkillable);
  }

  lemma RestartStores(s: State)
    ensures StoreIsCurrent(Restarted(s))
  {
  }

  lemma {:induction false} RunsKeepStore(stored: map<string, Stored>, calls: seq<Call>)
    ensures StoreIsCurrent(Run(stored, calls))
  {
    hide StoreIsCurrent, Apply;
    if calls == [] {
      RestartStores(State(map[], {}, stored));
    } else {
      RunsKeepStore(stored, calls[..|calls| - 1]);
      CallKeepsStore(Run(stored, calls[..|calls| - 1]), calls[|calls| - 1]);
    }
  }

  /** Whenever the program ends and starts again, exactly the sessions that had been started are there, paused,
    and none is indexed. */
  lemma RestartRestoresStarted(stored: map<string, Stored>, calls: seq<Call>, id: string)
    ensures var s, t := Run(stored, calls), Run(stored, calls + [Restart]);
      && t.indexers == {}
      && (id in t.instances <==> id in s.instances && s.instances[id].started)
      && (id in t.instances ==>
          && t.instances[id].status == Paused && t.instances[id].started
          && Image(t.instances[id]) == Image(s.instances[id]))
  {
    RunsKeepStore(stored, calls);
    assert (calls + [Restart])[..|calls|] == calls;
    hide Run;
  }
}
