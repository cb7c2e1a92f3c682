/** The flag that shows a session as paused for being idle: when it can stay set on a session that is not. */
module AutoPauseFlags {
  import opened Wrappers
  import opened Sessions
  import opened SessionRuns
  import opened IdleHistories

  ghost predicate FlagIsTrue(x: Inst) { x.autoPaused ==> x.status == Paused }

  ghost predicate FlagsTrue(s: State) {
    forall id | id in s.instances :: FlagIsTrue(s.instances[id])
  }

  predicate CannotPause(x: Inst, unkillable: set<string>) {
    !x.started || (x.inPlace && x.HasProcess() && x.title in unkillable)
  }

  /** The session is resumed on being opened. */
  predicate Reopens(x: Inst, env: OpenEnv) {
    HostAnswers(x, env) && WorktreeReady(x, env.resume) && SpawnWorks(x, env.resume.spawn)
  }

  predicate ChoosesUnpausable(s: State, chosen: set<string>, unkillable: set<string>) {
    exists id | id in chosen && id in s.instances :: CannotPause(s.instances[id], unkillable)
  }

  /** The calls that leave a flag on a session that is not paused: opening a flagged session so that it runs, and
    a pass that chooses a session it cannot pause. */
  predicate LeavesFlag(s: State, c: Call) {
    match c
    case Open(id, env, now) => id in s.instances && s.instances[id].autoPaused && Reopens(s.instances[id], env)
    case Poll(prompts, unkillable, now, timeout) =>
      ChoosesUnpausable(s, PollChooses(s, now, timeout), unkillable)
    case CheckIdle(prompts, unkillable, now, timeout) =>
      ChoosesUnpausable(s, CheckChooses(s, prompts, now, timeout), unkillable)
    case _ => false
  }

  lemma OpenLeavesFlagIff(s: State, id: string, env: OpenEnv, now: int)
    requires Good(s) && FlagsTrue(s)
    ensures FlagsTrue(Opened(s, id, env, now).0) <==> !LeavesFlag(s, Open(id, env, now))
  {
    hide Written, Resumed, WorktreeReady, SpawnWorks, Good;
    var t := Opened(s, id, env, now).0;
    OpenMarks(s, id, env, now);
    if id in s.instances {
      SessionIsSound(s, id);
      var x := s.instances[id].(lastViewed := Some(now));
      var y := Checked(x, env);
      ResumeFlags(y, env.resume);
      ResumeWorksIff(y, env.resume);
      SameAfterViewing(s.instances[id], env.resume, now);
      assert FlagIsTrue(s.instances[id]);
      assert FlagIsTrue(t.instances[id]) <==> !LeavesFlag(s, Open(id, env, now));
    }
  }

  lemma SessionIsSound(s: State, id: string)
    requires Good(s) && id in s.instances
    ensures Sound(id, s.instances[id])
  {
  }

  lemma ResumeFlags(x: Inst, env: ResumeEnv)
    ensures var (y, ok) := Resumed(x, env);
      y.autoPaused == x.autoPaused && y.status == if ok then Running else x.status
  {
  }

  lemma MarkKeepsStatus(x: Inst, prompts: set<string>, now: int)
    ensures var y := Marked(x, prompts, now);
      y == x.(idleSince := y.idleSince)
  {
  }

  lemma PauseFlags(x: Inst, killOk: bool)
    ensures var (y, ok) := PausedBy(x, killOk);
      && y.autoPaused == x.autoPaused
      && (y.status == Paused <==> ok || x.status == Paused)
      && (ok <==> x.started && x.status != Paused && !(x.inPlace && x.HasProcess() && !killOk))
  {
  }

  lemma PassLeavesFlagIff(s: State, prompts: set<string>, unkillable: set<string>, now: int, chosen: set<string>)
    requires FlagsTrue(s)
    requires forall id | id in chosen && id in s.instances :: s.instances[id].status != Paused
    ensures FlagsTrue(AllPaused(AllMarked(s, prompts, now), chosen, unkillable))
       <==> !ChoosesUnpausable(s, chosen, unkillable)
  {
    hide Written, Marked, PausedBy;
    var m := AllMarked(s, prompts, now);
    var t := AllPaused(m, chosen, unkillable);
    forall id | id in s.instances
      ensures FlagIsTrue(t.instances[id]) <==> id !in chosen || !CannotPause(s.instances[id], unkillable)
    {
      var x := m.instances[id];
      assert FlagIsTrue(s.instances[id]);
      MarkKeepsStatus(s.instances[id], prompts, now);
      PauseFlags(x.(autoPaused := true), x.title !in unkillable);
    }
    assert t.instances.Keys == s.instances.Keys;
  }

  lemma CheckChoosesUnpaused(s: State, prompts: set<string>, now: int, timeout: int)
    ensures forall id | id in CheckChooses(s, prompts, now, timeout) && id in s.instances ::
      s.instances[id].status != Paused
  {
    hide HasPrompt;
  }

  lemma PollChoosesUnpaused(s: State, now: int, timeout: int)
    ensures forall id | id in PollChooses(s, now, timeout) && id in s.instances :: s.instances[id].status != Paused
  {
  }

  /** A call about one session, other than opening it, never makes its flag false. */
  lemma OtherCallsKeepFlags(s: State, c: Call)
    requires Good(s) && FlagsTrue(s) && Subject(c).Some? && !c.Open?
    ensures FlagsTrue(Apply(s, c))
  {
    hide Written;
  }

  /** The flags stay true over a call exactly unless the call is one of those. */
  lemma CallKeepsFlagsIff(s: State, c: Call)
    requires Good(s) && FlagsTrue(s)
    ensures FlagsTrue(Apply(s, c)) <==> !LeavesFlag(s, c)
  {
    hide FlagsTrue, Good, Opened, Restarted, Created, Touched, StartedSession, PausedSession, ResumedSession, Killed,
         Indexed, AllPaused, AllMarked, PollChooses, CheckChooses, ChoosesUnpausable, Reopens;
    match c
    case Open(id, env, now) => OpenLeavesFlagIff(s, id, env, now);
    case Poll(prompts, unkillable, now, timeout) =>
      PollChoosesUnpaused(s, now, timeout);
      PassLeavesFlagIff(s, prompts, unkillable, now, PollChooses(s, now, timeout));
    case CheckIdle(prompts, unkillable, now, timeout) =>
      CheckChoosesUnpaused(s, prompts, now, timeout);
      PassLeavesFlagIff(s, prompts, unkillable, now, CheckChooses(s, prompts, now, timeout));
    case Restart => RestartedFlags(s);
    case _ => OtherCallsKeepFlags(s, c);
  }

  lemma RestartedFlags(s: State)
    ensures FlagsTrue(Restarted(s))
  {
  }

  /** In every orderly run the first false flag comes from one of those calls: without them none is ever false. */
  lemma {:induction false} RunsKeepFlags(stored: map<string, Stored>, calls: seq<Call>)
    requires Orderly(stored, calls)
    requires forall k | 0 <= k < |calls| :: !LeavesFlag(Run(stored, calls[..k]), calls[k])
    ensures FlagsTrue(Run(stored, calls))
  {
    hide Orderly, FlagsTrue, LeavesFlag, Apply, Restarted;
    if calls == [] {
      RestartedFlags(State(map[], {}, stored));
    } else {
      var before := calls[..|calls| - 1];
      OrderlyBefore(stored, calls);
      forall k | 0 <= k < |before| ensures !LeavesFlag(Run(stored, before[..k]), before[k]) {
        assert before[..k] == calls[..k] && before[k] == calls[k];
      }
      RunsKeepFlags(stored, before);
      RunsStayGood(stored, before);
      CallKeepsFlagsIff(Run(stored, before), calls[|calls| - 1]);
    }
  }

  lemma PolledAgain(s: State, timeout: int)
    requires timeout > 0 && s.instances == map["a" := SeenSession()]
    ensures Apply(s, Poll({"a"}, {}, timeout + 1, timeout)).instances
         == map["a" := SeenSession().(pid := "", status := Paused, autoPaused := true)]
  {
    hide Written;
    assert "a" in PollChooses(s, timeout + 1, timeout);
  }

  lemma OpenedAgain(s: State, now: int)
    requires s.instances == map["a" := SeenSession().(pid := "", status := Paused, autoPaused := true)]
    ensures var open := Open("a", OpenEnv(true, true, false, ResumeEnv(None, true, true, Spawns("pty-2"))), now);
      Apply(s, open).instances
        == map["a" := SeenSession().(pid := "pty-2", lastViewed := Some(now), autoPaused := true)]
  {
    hide Written;
  }

  /** A run that ends with a session both running and flagged, for every timeout: it is seen idle, paused for it by
    a later poll, and opened again. */
  lemma ReopenedStaysFlagged(timeout: int)
    requires timeout > 0
    ensures exists calls ::
      var s := Run(map[], calls);
      "a" in s.instances && s.instances["a"].status == Running && s.instances["a"].autoPaused
  {
    SeenSessionIsReached(timeout);
    hide Run, Apply;
    var calls :| Run(map[], calls).instances == map["a" := SeenSession()];
    var poll := Poll({"a"}, {}, timeout + 1, timeout);
    var open := Open("a", OpenEnv(true, true, false, ResumeEnv(None, true, true, Spawns("pty-2"))), timeout + 2);
    RunStep(map[], calls, poll);
    RunStep(map[], calls + [poll], open);
    PolledAgain(Run(map[], calls), timeout);
    OpenedAgain(Run(map[], calls + [poll]), timeout + 2);
    var u := Run(map[], calls + [poll] + [open]);
    assert u.instances["a"].status == Running && u.instances["a"].autoPaused;
  }

  lemma PolledInVain(s: State, timeout: int)
    requires timeout > 0 && s.instances == map["a" := SeenSession()]
    ensures Apply(s, Poll({"a"}, {"a"}, timeout + 1, timeout)).instances
         == map["a" := SeenSession().(autoPaused := true)]
  {
    hide Written;
    assert "a" in PollChooses(s, timeout + 1, timeout);
  }

  /** The other way there: the poll chooses an in-place session whose process cannot be killed. */
  lemma UnkillableStaysFlagged(timeout: int)
    requires timeout > 0
    ensures exists calls: seq<Call> ::
      var s := Run(map[], calls);
      && calls != [] && calls[|calls| - 1].Poll?
      && "a" in s.instances && s.instances["a"].status == Running && s.instances["a"].autoPaused
  {
    SeenSessionIsReached(timeout);
    hide Run, Apply;
    var calls :| Run(map[], calls).instances == map["a" := SeenSession()];
    var poll := Poll({"a"}, {"a"}, timeout + 1, timeout);
    RunStep(map[], calls, poll);
    PolledInVain(Run(map[], calls), timeout);
    assert Run(map[], calls + [poll]).instances["a"].autoPaused;
  }
}
