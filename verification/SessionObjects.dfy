/** The objects behind the session calls: instances whose methods change their fields, and the API that holds them. */
module SessionObjects {
  import opened Wrappers
  import opened Sessions
  import opened SessionRuns

  class Instance {
    const title: string
    const hostId: string
    const inPlace: bool
    const claude: bool
    var status: Status
    var started: bool
    var processID: string
    var idleSince: Option<int>
    var lastViewed: Option<int>
    var autoPaused: bool

    ghost function Value(): Inst reads this {
      Inst(title, hostId, inPlace, claude, status, started, processID, idleSince, lastViewed, autoPaused)
    }

    constructor (title: string, hostId: string, inPlace: bool, claude: bool)
      ensures Value() == NewInstance(title, hostId, inPlace, claude)
    {
      this.title, this.hostId, this.inPlace, this.claude := title, hostId, inPlace, claude;
      status, started, processID := Ready, false, "";
      idleSince, lastViewed, autoPaused := None, None, false;
    }

    /** The process id of a fresh process; a conversation that cannot be resumed is given up for a new one. */
    method Spawn(resume: bool, spawn: Sessions.Spawn) returns (ok: bool)
      modifies this`processID
      ensures (processID, ok) == SpawnProcess(old(Value()), resume, spawn)
    {
      if spawn.SpawnFails? { return false; }
      processID := if spawn.Spawns? then spawn.id else spawn.first;
      if claude && resume && spawn.FallsBack? {
        if spawn.second.None? { return false; }
        processID := spawn.second.value;
      }
      return true;
    }

    method Start(env: StartEnv) returns (ok: bool)
      modifies this
      ensures (Value(), ok) == Started(old(Value()), env)
    {
      if title == "" { return false; }
      if !inPlace {
        if !env.worktreeOk { return false; }
        if !env.setupOk { return false; }
      }
      ok := Spawn(false, env.spawn);
      if ok {
        status := Running;
        started := true;
      }
    }

    method Pause(killOk: bool) returns (ok: bool)
      modifies this
      ensures (Value(), ok) == PausedBy(old(Value()), killOk)
    {
      if !started || status == Paused { return false; }
      if inPlace {
        if processID != "" {
          if !killOk { return false; }
          processID := "";
        }
        status := Paused;
        return true;
      }
      if processID != "" { processID := ""; }
      status := Paused;
      return true;
    }

    method SetStatus(status: Status)
      modifies this
      ensures Value() == old(Value()).(status := status)
    {
      this.status := status;
    }

    method SetAutoPaused(autoPaused: bool)
      modifies this
      ensures Value() == old(Value()).(autoPaused := autoPaused)
    {
      this.autoPaused := autoPaused;
    }

    method ForcePause()
      modifies this
      ensures Value() == ForcePaused(old(Value()))
    {
      processID := "";
      status := Paused;
    }

    method Resume(env: ResumeEnv) returns (ok: bool)
      modifies this
      ensures (Value(), ok) == Resumed(old(Value()), env)
    {
      if !started { return false; }
      if status != Paused { return false; }
      if !inPlace {
        if env.branchCheckedOut.None? || env.branchCheckedOut.value { return false; }
        if !env.worktreeExists && !env.setupOk { return false; }
      }
      ok := Spawn(true, env.spawn);
      if ok { status := Running; }
    }

    /** The process is gone afterwards, if there was one that had been started. */
    method Kill()
      modifies this`processID
      ensures processID == if started then "" else old(processID)
    {
      if started && processID != "" { processID := ""; }
    }

    method TouchLastViewed(now: int)
      modifies this
      ensures Value() == old(Value()).(lastViewed := Some(now))
    {
      lastViewed := Some(now);
    }

    /** Marks the instance idle or active, unless it is paused. */
    method Mark(prompts: set<string>, now: int)
      modifies this
      ensures Value() == Marked(old(Value()), prompts, now)
    {
      if status == Paused { return; }
      var hasPrompt := started && processID != "" && title in prompts;
      if hasPrompt {
        if idleSince.None? { idleSince := Some(now); }
      } else {
        idleSince := None;
      }
    }
  }

  class SessionAPI {
    var instances: map<string, Instance>
    var indexers: set<string>
    var stored: map<string, Stored>
    ghost var state: State
    ghost var created: set<Instance>    // every instance ever created

    ghost predicate Valid()
      reads this, created
    {
      && indexers == state.indexers && stored == state.stored
      && instances.Keys == state.instances.Keys
      && forall id | id in instances ::
           instances[id] in created && instances[id].title == id && instances[id].Value() == state.instances[id]
    }

    /** Stored sessions are loaded as paused; nothing runs and nothing is indexed. */
    constructor (stored: map<string, Stored>)
      ensures Valid() && state == Initial(stored) && fresh(created)
    {
      this.stored, indexers, instances, created := stored, {}, map[], {};
      state := State(map[], {}, stored);
      new;
      LoadStored(stored);
    }

    method LoadStored(stored: map<string, Stored>)
      requires Valid() && state == State(map[], {}, stored)
      modifies this`instances, this`created, this`state
      ensures Valid() && state == Initial(stored) && fresh(created - old(created))
    {
      hide SessionAPI.Valid, Restored;
      var titles := stored.Keys;
      while titles != {}
        invariant titles <= stored.Keys
        invariant Valid() && fresh(created - old(created))
        invariant state == State(map id | id in stored.Keys - titles :: Restored(id, stored[id]), {}, stored)
        decreases titles
      {
        var id :| id in titles;
        titles := titles - {id};
        Load(id, stored[id]);
      }
    }

    method Load(id: string, image: Stored)
      requires Valid()
      modifies this`instances, this`created, this`state
      ensures Valid() && state == Put(old(state), id, Restored(id, image)) && fresh(created - old(created))
    {
      var x := new Instance(id, image.hostId, image.inPlace, image.claude);
      x.status, x.started := Paused, true;
      created := created + {x};
      instances := instances[id := x];
      state := Put(state, id, Restored(id, image));
    }

    /** Writes the sessions that have been started. */
    method SaveInstances()
      requires Valid()
      modifies this`stored, this`state
      ensures Valid() && state == Save(old(state))
    {
      var written: map<string, Stored> := map[];
      var titles := instances.Keys;
      while titles != {}
        invariant titles <= instances.Keys
        invariant written.Keys == (set id | id in instances.Keys - titles && state.instances[id].started)
        invariant forall id | id in written :: written[id] == Image(state.instances[id])
        decreases titles
      {
        var id :| id in titles;
        titles := titles - {id};
        var x := instances[id];
        if x.started { written := written[id := Stored(x.hostId, x.inPlace, x.claude)]; }
      }
      assert written == Written(state.instances);
      stored := written;
      state := Save(state);
    }

    /** What is known of a session under its title. */
    lemma Known(id: string)
      requires Valid()
      ensures id in instances <==> id in state.instances
      ensures id in instances ==> instances[id].Value() == state.instances[id] && instances[id].title == id
      ensures indexers == state.indexers
    {
    }

    // ----- One instance changes, and the session with it -----

    method TouchInstance(id: string, now: int)
      requires Valid() && id in instances
      modifies this`state, instances[id]
      ensures Valid() && state == Put(old(state), id, old(state).instances[id].(lastViewed := Some(now)))
    {
      instances[id].TouchLastViewed(now);
      state := Put(state, id, state.instances[id].(lastViewed := Some(now)));
    }

    method SetInstanceStatus(id: string, status: Status)
      requires Valid() && id in instances
      modifies this`state, instances[id]
      ensures Valid() && state == Put(old(state), id, old(state).instances[id].(status := status))
    {
      instances[id].SetStatus(status);
      state := Put(state, id, state.instances[id].(status := status));
    }

    method StartInstance(id: string, env: StartEnv) returns (ok: bool)
      requires Valid() && id in instances
      modifies this`state, instances[id]
      ensures Valid() && state == Put(old(state), id, Started(old(state).instances[id], env).0)
      ensures ok == Started(old(state).instances[id], env).1
    {
      hide Started;
      ok := instances[id].Start(env);
      state := Put(state, id, Started(state.instances[id], env).0);
    }

    method PauseInstance(id: string, killOk: bool) returns (ok: bool)
      requires Valid() && id in instances
      modifies this`state, instances[id]
      ensures Valid() && state == Put(old(state), id, PausedBy(old(state).instances[id], killOk).0)
      ensures ok == PausedBy(old(state).instances[id], killOk).1
    {
      hide PausedBy;
      ok := instances[id].Pause(killOk);
      state := Put(state, id, PausedBy(state.instances[id], killOk).0);
    }

    method ForcePauseInstance(id: string)
      requires Valid() && id in instances
      modifies this`state, instances[id]
      ensures Valid() && state == Put(old(state), id, ForcePaused(old(state).instances[id]))
    {
      instances[id].ForcePause();
      state := Put(state, id, ForcePaused(state.instances[id]));
    }

    method ResumeInstance(id: string, env: ResumeEnv) returns (ok: bool)
      requires Valid() && id in instances
      modifies this`state, instances[id]
      ensures Valid() && state == Put(old(state), id, Resumed(old(state).instances[id], env).0)
      ensures ok == Resumed(old(state).instances[id], env).1
    {
      hide Resumed;
      ok := instances[id].Resume(env);
      state := Put(state, id, Resumed(state.instances[id], env).0);
    }

    method MarkInstance(id: string, prompts: set<string>, now: int)
      requires Valid() && id in instances
      modifies this`state, instances[id]
      ensures Valid() && state == Put(old(state), id, Marked(old(state).instances[id], prompts, now))
    {
      hide Marked;
      instances[id].Mark(prompts, now);
      state := Put(state, id, Marked(state.instances[id], prompts, now));
    }

    method SetAutoPaused(id: string, autoPaused: bool)
      requires Valid() && id in instances
      modifies this`state, instances[id]
      ensures Valid() && state == Put(old(state), id, old(state).instances[id].(autoPaused := autoPaused))
    {
      instances[id].SetAutoPaused(autoPaused);
      state := Put(state, id, state.instances[id].(autoPaused := autoPaused));
    }

    /** The session and its indexer are gone, and that is written. */
    method RemoveSession(id: string)
      requires Valid()
      modifies this`indexers, this`instances, this`stored, this`state
      ensures Valid()
      ensures state == Save(State(old(state).instances - {id}, old(state).indexers - {id}, old(state).stored))
      ensures instances == old(instances) - {id}
    {
      hide Written;
      instances := instances - {id};
      state := State(state.instances - {id}, state.indexers, state.stored);
      StopIndexer(id);
      SaveInstances();
    }

    method StopIndexer(id: string)
      requires Valid()
      modifies this`indexers, this`state
      ensures Valid() && state == old(state).(indexers := old(state).indexers - {id})
    {
      if id in indexers { indexers := indexers - {id}; }
      state := state.(indexers := state.indexers - {id});
    }

    method StartIndexer(id: string)
      requires Valid()
      modifies this`indexers, this`state
      ensures Valid() && state == old(state).(indexers := old(state).indexers + {id})
    {
      indexers := indexers + {id};
      state := state.(indexers := state.indexers + {id});
    }

    // ----- The calls -----

    method CreateSession(title: string, hostId: string, inPlace: bool, claude: bool, hostOk: bool) returns (ok: bool)
      requires Valid()
      modifies this
      ensures Valid() && state == Created(old(state), title, hostId, inPlace, claude, hostOk)
      ensures fresh(created - old(created)) && (ok <==> hostId == "" || hostOk)
    {
      if hostId != "" && !hostOk { return false; }
      var x := new Instance(title, hostId, inPlace, claude);
      created := created + {x};
      instances := instances[title := x];
      state := Put(state, title, NewInstance(title, hostId, inPlace, claude));
      SaveInstances();
      return true;
    }

    method TouchSession(id: string, now: int)
      requires Valid()
      modifies this`state, created
      ensures Valid() && state == Touched(old(state), id, now)
    {
      if id !in instances { return; }
      TouchInstance(id, now);
    }

    method IndexSession(id: string)
      requires Valid()
      modifies this`indexers, this`state
      ensures Valid() && state == Indexed(old(state), id)
    {
      hide SessionAPI.Valid;
      Known(id);
      StopIndexer(id);
      if id !in instances { return; }
      if instances[id].status == Paused { return; }
      if instances[id].hostId != "" { return; }
      StartIndexer(id);
    }

    /** A failing start takes the session away again. */
    method StartSession(id: string, env: StartEnv) returns (ok: bool)
      requires Valid()
      modifies this, created
      ensures Valid() && (state, ok) == StartedSession(old(state), id, env) && created == old(created)
    {
      hide Started, Written, SessionAPI.Valid;
      Known(id);
      if id !in instances { return false; }
      if instances[id].started { return true; }
      IsCreated(id);
      ghost var loading := old(state).instances[id].(status := Loading);
      SetInstanceStatus(id, Loading);
      ok := StartInstance(id, env);
      PutTwice(old(state), id, loading, Started(loading, env).0);
      if !ok {
        RemoveSession(id);
        return false;
      }
      SaveInstances();
      Known(id);
      if instances[id].hostId == "" { StartIndexer(id); }
    }

    lemma IsCreated(id: string)
      requires Valid() && id in instances
      ensures instances[id] in created
    {
    }

    /** The indexer stops even if the session cannot be paused. */
    method PauseSession(id: string, killOk: bool) returns (ok: bool)
      requires Valid()
      modifies this, created
      ensures Valid() && (state, ok) == PausedSession(old(state), id, killOk)
      ensures created == old(created) && instances == old(instances)
    {
      hide PausedBy, Written, SessionAPI.Valid;
      Known(id);
      if id !in instances { return false; }
      IsCreated(id);
      StopIndexer(id);
      ok := PauseInstance(id, killOk);
      if ok {
        SaveInstances();
      } else {
        FailedPauseChangesNothing(old(state).instances[id], killOk);
        assert old(state).instances[id := old(state).instances[id]] == old(state).instances;
      }
    }

    method ResumeSession(id: string, env: ResumeEnv) returns (ok: bool)
      requires Valid()
      modifies this, created
      ensures Valid() && (state, ok) == ResumedSession(old(state), id, env)
      ensures created == old(created)
    {
      hide Resumed, Written, SessionAPI.Valid;
      Known(id);
      if id !in instances { return false; }
      IsCreated(id);
      ok := ResumeInstance(id, env);
      if ok {
        ghost var x := Resumed(old(state).instances[id], env).0;
        SetAutoPaused(id, false);
        PutTwice(old(state), id, x, x.(autoPaused := false));
        SaveInstances();
      }
    }

    method KillSession(id: string) returns (ok: bool)
      requires Valid()
      modifies this, created
      ensures Valid() && (state, ok) == Killed(old(state), id)
      ensures created == old(created)
    {
      hide Written;
      if id !in instances { return false; }
      var x := instances[id];
      RemoveSession(id);
      x.Kill();
      return true;
    }

    /** The process to connect to; a paused session is resumed, a local one gets an indexer. */
    method OpenSession(id: string, env: OpenEnv, now: int) returns (answer: Option<string>)
      requires Valid()
      modifies this, created
      ensures Valid() && (state, answer) == Opened(old(state), id, env, now)
      ensures created == old(created)
    {
      hide Resumed, Written, SessionAPI.Valid;
      Known(id);
      if id !in instances { return None; }
      IsCreated(id);
      TouchInstance(id, now);
      Known(id);
      var x := instances[id];
      if x.hostId != "" {
        if !env.connected || !env.hasProcessManager { return None; }
        if x.processID != "" && x.status != Paused && env.exited { ForcePauseInstance(id); }
      }
      Known(id);
      ghost var y := state.instances[id];
      assert y == Checked(old(state).instances[id].(lastViewed := Some(now)), env);
      PutTwice(old(state), id, old(state).instances[id].(lastViewed := Some(now)), y);
      PutTwice(old(state), id, y, Resumed(y, env.resume).0);
      assert state == Put(old(state), id, y);
      if x.status == Paused {
        var ok := ResumeInstance(id, env.resume);
        if !ok { return None; }
        SaveInstances();
      }
      answer := Show(id);
    }

    /** The tail of opening: an indexer for a local session, and its process if it has one. */
    method Show(id: string) returns (answer: Option<string>)
      requires Valid() && id in instances
      modifies this`indexers, this`state
      ensures Valid() && (state, answer) == Shown(old(state), id, old(state).instances[id])
    {
      hide SessionAPI.Valid;
      Known(id);
      if instances[id].hostId == "" { StartIndexer(id); }
      return if instances[id].processID == "" then None else Some(instances[id].processID);
    }

    // ----- The passes -----

    /** Marks every session, and chooses by the marks of before. */
    method PollPass(prompts: set<string>, now: int, timeout: int)
      returns (chosen: set<string>, seen: map<string, Report>)
      requires Valid()
      modifies this`state, created
      ensures Valid() && instances == old(instances) && created == old(created)
      ensures state == AllMarked(old(state), prompts, now) && chosen == PollChooses(old(state), now, timeout)
      ensures seen == Looked(old(state), old(state).instances.Keys, prompts)
    {
      hide SessionAPI.Valid, Marked, Looked;
      NothingLooked(state, prompts);
      chosen, seen := {}, map[];
      var titles := instances.Keys;
      SameKeys();
      SomeMarked(state, {}, prompts, now);
      assert instances.Keys - titles == {};
      while titles != {}
        invariant titles <= instances.Keys && instances.Keys == old(state).instances.Keys
        invariant instances == old(instances) && created == old(created)
        invariant Valid() && state == MarkedIn(old(state), instances.Keys - titles, prompts, now)
        invariant chosen == PollChooses(old(state), now, timeout) - titles
        invariant seen == Looked(old(state), instances.Keys - titles, prompts)
        decreases titles
      {
        var id :| id in titles;
        Known(id);
        IsCreated(id);
        var x := instances[id];
        MarkedInStep(old(state), instances.Keys - titles, id, prompts, now);
        if timeout > 0 && x.status != Paused && x.idleSince.Some?
           && now - x.idleSince.value > timeout && (x.lastViewed.None? || now - x.lastViewed.value > timeout) {
          chosen := chosen + {id};
        }
        var hasPrompt := x.started && x.processID != "" && x.title in prompts;
        ghost var done := instances.Keys - titles;
        LookedStep(old(state), done, id, prompts);
        seen := seen[id := Report(x.status, hasPrompt, x.autoPaused)];
        MarkInstance(id, prompts, now);
        titles := titles - {id};
        assert instances.Keys - titles == done + {id};
      }
      assert instances.Keys - titles == old(state).instances.Keys;
      AllMarkedIn(old(state), prompts, now);
    }

    /** Marks every session that is not paused, and chooses by the new marks. */
    method CheckPass(prompts: set<string>, now: int, timeout: int) returns (chosen: set<string>)
      requires Valid()
      modifies this`state, created
      ensures Valid() && instances == old(instances) && created == old(created)
      ensures state == AllMarked(old(state), prompts, now) && chosen == CheckChooses(old(state), prompts, now, timeout)
    {
      hide SessionAPI.Valid, Marked;
      chosen := {};
      var titles := instances.Keys;
      SameKeys();
      SomeMarked(state, {}, prompts, now);
      while titles != {}
        invariant titles <= instances.Keys && instances.Keys == old(state).instances.Keys
        invariant instances == old(instances) && created == old(created)
        invariant Valid() && state == MarkedIn(old(state), instances.Keys - titles, prompts, now)
        invariant chosen == CheckChooses(old(state), prompts, now, timeout) - titles
        decreases titles
      {
        var id :| id in titles;
        IsCreated(id);
        MarkedInStep(old(state), instances.Keys - titles, id, prompts, now);
        MarkInstance(id, prompts, now);
        Known(id);
        var x := instances[id];
        if x.status != Paused && x.idleSince.Some?
           && now - x.idleSince.value > timeout && (x.lastViewed.None? || now - x.lastViewed.value > timeout) {
          chosen := chosen + {id};
        }
        titles := titles - {id};
        assert instances.Keys - titles == instances.Keys - (titles + {id}) + {id};
      }
      AllMarkedIn(old(state), prompts, now);
    }

    /** The chosen sessions are flagged and paused, one after the other. */
    method PauseChosen(chosen: set<string>, unkillable: set<string>)
      requires Valid() && chosen <= instances.Keys
      modifies this, created
      ensures Valid() && state == AllPaused(old(state), chosen, unkillable) && created == old(created)
    {
      hide SessionAPI.Valid, AllPaused, PausedSession;
      var rest := chosen;
      NonePaused(state, unkillable);
      assert chosen - rest == {};
      TitlesMatch();
      while rest != {}
        invariant rest <= chosen && instances == old(instances) && created == old(created)
        invariant Valid() && state == AllPaused(old(state), chosen - rest, unkillable)
        decreases rest
      {
        var id :| id in rest;
        Known(id);
        IsCreated(id);
        ghost var done := chosen - rest;
        PausedStep(old(state), done, id, unkillable);
        SetAutoPaused(id, true);
        var ok := PauseSession(id, id !in unkillable);
        rest := rest - {id};
        assert chosen - rest == done + {id};
      }
      assert chosen - rest == chosen;
    }

    /** The frontend's poll, and what it is told. */
    method PollAllStatuses(prompts: set<string>, unkillable: set<string>, now: int, timeout: int)
      returns (report: map<string, Report>)
      requires Valid()
      modifies this, created
      ensures Valid() && state == Polled(old(state), prompts, unkillable, now, timeout) && created == old(created)
      ensures report == Reported(old(state), prompts, now, timeout)
    {
      hide SessionAPI.Valid, AllPaused, AllMarked, Looked;
      SameKeys();
      var chosen, seen := PollPass(prompts, now, timeout);
      PauseChosen(chosen, unkillable);
      LookedHas(old(state), prompts);
      report := PausedInReport(seen, chosen);
      assert report == Reported(old(state), prompts, now, timeout);
    }

    /** Whoever was chosen is reported as paused. */
    static method PausedInReport(seen: map<string, Report>, chosen: set<string>) returns (report: map<string, Report>)
      requires chosen <= seen.Keys
      ensures report.Keys == seen.Keys
      ensures forall id | id in seen ::
        report[id] == if id in chosen then seen[id].(status := Paused, autoPaused := true) else seen[id]
    {
      report := seen;
      var rest := chosen;
      while rest != {}
        invariant rest <= chosen && report.Keys == seen.Keys
        invariant forall id | id in seen ::
          report[id] == if id in chosen - rest then seen[id].(status := Paused, autoPaused := true) else seen[id]
        decreases rest
      {
        var id :| id in rest;
        rest := rest - {id};
        report := report[id := report[id].(status := Paused, autoPaused := true)];
      }
    }

    /** The background check. */
    method CheckIdleSessions(prompts: set<string>, unkillable: set<string>, now: int, timeout: int)
      requires Valid()
      modifies this, created
      ensures Valid() && state == CheckedIdle(old(state), prompts, unkillable, now, timeout) && created == old(created)
    {
      hide SessionAPI.Valid, AllPaused, AllMarked;
      SameKeys();
      var chosen := CheckPass(prompts, now, timeout);
      PauseChosen(chosen, unkillable);
    }

    lemma TitlesMatch()
      requires Valid()
      ensures forall id | id in instances :: id in state.instances && state.instances[id].title == id
    {
    }

    lemma SameKeys()
      requires Valid()
      ensures instances.Keys == state.instances.Keys
    {
    }
  }

  lemma PutTwice(s: State, id: string, x: Inst, y: Inst)
    ensures Put(Put(s, id, x), id, y) == Put(s, id, y)
    ensures Put(s, id, y).instances - {id} == s.instances - {id}
  {
  }

  lemma FailedPauseChangesNothing(x: Inst, killOk: bool)
    ensures !PausedBy(x, killOk).1 ==> PausedBy(x, killOk).0 == x
  {
  }

  // ----- Passes in steps -----

  /** Marked so far. */
  ghost function MarkedIn(s: State, done: set<string>, prompts: set<string>, now: int): State {
    s.(instances := map id | id in s.instances ::
      if id in done then Marked(s.instances[id], prompts, now) else s.instances[id])
  }

  /** The status of the sessions looked at. */
  function Looked(s: State, done: set<string>, prompts: set<string>): map<string, Report> {
    map id | id in s.instances && id in done ::
      Report(s.instances[id].status, HasPrompt(s.instances[id], prompts), s.instances[id].autoPaused)
  }

  lemma NothingLooked(s: State, prompts: set<string>)
    ensures Looked(s, {}, prompts) == map[]
  {
  }

  lemma LookedStep(s: State, done: set<string>, id: string, prompts: set<string>)
    requires id in s.instances
    ensures var x := s.instances[id];
      Looked(s, done + {id}, prompts)
      == Looked(s, done, prompts)[id := Report(x.status, HasPrompt(x, prompts), x.autoPaused)]
  {
  }

  lemma LookedHas(s: State, prompts: set<string>)
    ensures Looked(s, s.instances.Keys, prompts).Keys == s.instances.Keys
    ensures forall id | id in s.instances ::
      Looked(s, s.instances.Keys, prompts)[id]
      == Report(s.instances[id].status, HasPrompt(s.instances[id], prompts), s.instances[id].autoPaused)
  {
  }

  lemma SomeMarked(s: State, done: set<string>, prompts: set<string>, now: int)
    ensures done == {} ==> MarkedIn(s, done, prompts, now) == s
  {
    hide Marked;
    if done == {} { assert MarkedIn(s, done, prompts, now).instances == s.instances; }
  }

  lemma MarkedInStep(s: State, done: set<string>, id: string, prompts: set<string>, now: int)
    requires id in s.instances && id !in done
    ensures MarkedIn(s, done, prompts, now).instances[id] == s.instances[id]
    ensures MarkedIn(s, done + {id}, prompts, now)
         == Put(MarkedIn(s, done, prompts, now), id, Marked(s.instances[id], prompts, now))
  {
    hide Marked;
    assert MarkedIn(s, done + {id}, prompts, now).instances
        == Put(MarkedIn(s, done, prompts, now), id, Marked(s.instances[id], prompts, now)).instances;
  }

  lemma AllMarkedIn(s: State, prompts: set<string>, now: int)
    ensures MarkedIn(s, s.instances.Keys, prompts, now) == AllMarked(s, prompts, now)
  {
    hide Marked;
    assert MarkedIn(s, s.instances.Keys, prompts, now).instances == AllMarked(s, prompts, now).instances;
  }

  lemma NonePaused(s: State, unkillable: set<string>)
    ensures AllPaused(s, {}, unkillable) == s
  {
    assert AllPaused(s, {}, unkillable).instances == s.instances;
  }

  lemma PauseIgnoresFlag(x: Inst, killOk: bool)
    ensures PausedBy(x.(autoPaused := true), killOk).1 == PausedBy(x, killOk).1
  {
  }

  lemma PausedStepInstances(s: State, done: set<string>, id: string, unkillable: set<string>)
    requires id in s.instances && id !in done && s.instances[id].title == id
    ensures var t, v := AllPaused(s, done, unkillable), AllPaused(s, done + {id}, unkillable);
      && id in t.instances && t.instances[id] == s.instances[id]
      && v.instances == t.instances[id := PausedBy(s.instances[id].(autoPaused := true), id !in unkillable).0]
      && v.indexers == t.indexers - {id}
      && Written(t.instances) == Written(v.instances)
  {
    hide Written, PausedBy;
    var t, v := AllPaused(s, done, unkillable), AllPaused(s, done + {id}, unkillable);
    forall i | i in t.instances ensures SameImage(t.instances[i], v.instances[i]) {
      if i == id { PauseKeepsImage(s.instances[id].(autoPaused := true), id !in unkillable); }
    }
    SameImages(t.instances, v.instances);
  }

  /** One more session paused. */
  lemma PausedStep(s: State, done: set<string>, id: string, unkillable: set<string>)
    requires id in s.instances && id !in done && s.instances[id].title == id
    ensures var t := AllPaused(s, done, unkillable);
      && id in t.instances
      && PausedSession(Put(t, id, t.instances[id].(autoPaused := true)), id, id !in unkillable).0
         == AllPaused(s, done + {id}, unkillable)
  {
    hide Written, PausedBy;
    var t, v := AllPaused(s, done, unkillable), AllPaused(s, done + {id}, unkillable);
    var x := s.instances[id].(autoPaused := true);
    PausedStepInstances(s, done, id, unkillable);
    PauseIgnoresFlag(s.instances[id], id !in unkillable);
    FailedPauseChangesNothing(x, id !in unkillable);
    PutTwice(t, id, x, PausedBy(x, id !in unkillable).0);
    assert PausedSession(Put(t, id, x), id, id !in unkillable).0.instances == v.instances;
    assert PausedSession(Put(t, id, x), id, id !in unkillable).0.stored == v.stored;
  }
}
