/** When sessions count as idle, and which are paused for it. */
module IdleHistories {
  import opened Wrappers
  import opened Sessions
  import opened SessionRuns

  /** What a pass saw of a session that was not paused. */
  datatype Observation = Observation(now: int, prompt: bool)

  /** A new object under this title. */
  predicate Replaces(c: Call, id: string) {
    c.Restart? || (c.Create? && c.title == id && (c.hostId == "" || c.hostOk))
  }

  predicate IsPass(c: Call) { c.Poll? || c.CheckIdle? }

  predicate IsView(c: Call, id: string) { (c.Open? || c.Touch?) && c.id == id }

  /** Everything the passes saw of the present session under this title, while it was not paused. */
  function Observations(stored: map<string, Stored>, calls: seq<Call>, id: string): seq<Observation> {
    if calls == [] then []
    else
      var before, c := calls[..|calls| - 1], calls[|calls| - 1];
      var s := Run(stored, before);
      var here := id in s.instances && s.instances[id].status != Paused;
      if Replaces(c, id) then []
      else if IsPass(c) && here then
        Observations(stored, before, id) + [Observation(c.now, HasPrompt(s.instances[id], c.prompts))]
      else Observations(stored, before, id)
  }

  /** From `k` on the prompt was always there, and just before it was not. */
  ghost predicate SeriesFrom(seen: seq<Observation>, k: int) {
    && 0 <= k < |seen|
    && (forall i | k <= i < |seen| :: seen[i].prompt)
    && (k > 0 ==> !seen[k - 1].prompt)
  }

  /** Idle since the first sight of the present unbroken series of prompts; not idle if the last sight had none. */
  ghost predicate IdleAsSeen(idleSince: Option<int>, seen: seq<Observation>) {
    match idleSince
    case None => seen == [] || !seen[|seen| - 1].prompt
    case Some(t) => exists k :: SeriesFrom(seen, k) && seen[k].now == t
  }

  lemma SeenOnce(idleSince: Option<int>, seen: seq<Observation>, now: int, prompt: bool)
    requires IdleAsSeen(idleSince, seen)
    ensures IdleAsSeen(if !prompt then None else if idleSince.None? then Some(now) else idleSince,
                       seen + [Observation(now, prompt)])
  {
    var more := seen + [Observation(now, prompt)];
    if prompt {
      if idleSince.None? {
        assert SeriesFrom(more, |seen|);
      } else {
        var k :| SeriesFrom(seen, k) && seen[k].now == idleSince.value;
        assert SeriesFrom(more, k);
      }
    }
  }

  ghost predicate SameMarks(x: Inst, y: Inst) { x.idleSince == y.idleSince && x.lastViewed == y.lastViewed }

  lemma OpenMarks(s: State, i: string, env: OpenEnv, now: int)
    ensures var t := Opened(s, i, env, now).0;
      && t.instances.Keys == s.instances.Keys
      && (i in s.instances ==> SameMarks(t.instances[i], s.instances[i].(lastViewed := Some(now))))
      && forall id | id in s.instances && id != i :: t.instances[id] == s.instances[id]
  {
    hide Written, Checked, Resumed;
    if i in s.instances {
      var x := s.instances[i].(lastViewed := Some(now));
      CheckMarks(x, env);
      ResumeMarks(Checked(x, env), env.resume);
    }
  }

  lemma CheckMarks(x: Inst, env: OpenEnv)
    ensures SameMarks(x, Checked(x, env))
  {
  }

  lemma ResumeMarks(x: Inst, env: ResumeEnv)
    ensures SameMarks(x, Resumed(x, env).0)
  {
  }

  lemma StartMarks(x: Inst, env: StartEnv)
    ensures SameMarks(x, Started(x, env).0)
  {
  }

  lemma PauseMarks(x: Inst, killOk: bool)
    ensures SameMarks(x, PausedBy(x, killOk).0)
  {
  }

  lemma MarkKeepsView(x: Inst, prompts: set<string>, now: int)
    ensures Marked(x, prompts, now).lastViewed == x.lastViewed
  {
  }

  lemma PassMarks(s: State, prompts: set<string>, now: int, chosen: set<string>, unkillable: set<string>)
    ensures var t := AllPaused(AllMarked(s, prompts, now), chosen, unkillable);
      && t.instances.Keys == s.instances.Keys
      && forall id | id in s.instances ::
           t.instances[id].idleSince == Marked(s.instances[id], prompts, now).idleSince
           && t.instances[id].lastViewed == s.instances[id].lastViewed
  {
    hide Written, Marked, PausedBy;
    var m := AllMarked(s, prompts, now);
    forall id | id in s.instances
      ensures SameMarks(AllPaused(m, chosen, unkillable).instances[id], Marked(s.instances[id], prompts, now))
      ensures Marked(s.instances[id], prompts, now).lastViewed == s.instances[id].lastViewed
    {
      MarkKeepsView(s.instances[id], prompts, now);
      PauseMarks(m.instances[id].(autoPaused := true), m.instances[id].title !in unkillable);
    }
  }

  /** How one call changes the marks of a session that stays. */
  lemma MarksAfter(s: State, c: Call, id: string)
    requires id in Apply(s, c).instances
    ensures Replaces(c, id) ==> Apply(s, c).instances[id].idleSince == None
    ensures Replaces(c, id) ==> Apply(s, c).instances[id].lastViewed == None
    ensures !Replaces(c, id) ==> id in s.instances
    ensures !Replaces(c, id) && IsPass(c) ==>
      Apply(s, c).instances[id].idleSince == Marked(s.instances[id], c.prompts, c.now).idleSince
    ensures !Replaces(c, id) && !IsPass(c) ==> Apply(s, c).instances[id].idleSince == s.instances[id].idleSince
    ensures !Replaces(c, id) && IsView(c, id) ==> Apply(s, c).instances[id].lastViewed == Some(c.now)
    ensures !Replaces(c, id) && !IsView(c, id) ==> Apply(s, c).instances[id].lastViewed == s.instances[id].lastViewed
  {
    hide Written, Opened, Started, Resumed, PausedBy, AllPaused, AllMarked, Marked, PollChooses, CheckChooses;
    match c
    case Create(title, hostId, inPlace, claude, hostOk) =>
    case Open(i, env, now) => OpenMarks(s, i, env, now);
    case Start(i, env) => if i in s.instances { StartMarks(s.instances[i].(status := Loading), env); }
    case Pause(i, killOk) => if i in s.instances { PauseMarks(s.instances[i], killOk); }
    case Resume(i, env) => if i in s.instances { ResumeMarks(s.instances[i], env); }
    case Poll(prompts, unkillable, now, timeout) =>
      PassMarks(s, prompts, now, PollChooses(s, now, timeout), unkillable);
    case CheckIdle(prompts, unkillable, now, timeout) =>
      PassMarks(s, prompts, now, CheckChooses(s, prompts, now, timeout), unkillable);
    case _ =>
  }

  /** In every run: the mark of a session says since when every pass over it has seen a prompt. */
  lemma {:induction false} IdleSinceIsFirstPrompt(stored: map<string, Stored>, calls: seq<Call>, id: string)
    requires id in Run(stored, calls).instances
    ensures IdleAsSeen(Run(stored, calls).instances[id].idleSince, Observations(stored, calls, id))
  {
    hide Apply, IdleAsSeen, Restarted, HasPrompt;
    if calls == [] {
      NothingSeen();
      InitiallyUnmarked(stored, id);
    } else {
      var before, c := calls[..|calls| - 1], calls[|calls| - 1];
      var s := Run(stored, before);
      MarksAfter(s, c, id);
      if Replaces(c, id) {
        NothingSeen();
      } else {
        IdleSinceIsFirstPrompt(stored, before, id);
        if IsPass(c) && s.instances[id].status != Paused {
          SeenOnce(s.instances[id].idleSince, Observations(stored, before, id), c.now,
                   HasPrompt(s.instances[id], c.prompts));
        }
      }
    }
  }

  lemma NothingSeen()
    ensures IdleAsSeen(None, [])
  {
  }

  lemma InitiallyUnmarked(stored: map<string, Stored>, id: string)
    requires id in Initial(stored).instances
    ensures Initial(stored).instances[id].idleSince == None && Initial(stored).instances[id].lastViewed == None
  {
  }

  // ----- Viewing -----

  /** When the present session under this title was opened or touched. */
  function Views(stored: map<string, Stored>, calls: seq<Call>, id: string): seq<int> {
    if calls == [] then []
    else
      var before, c := calls[..|calls| - 1], calls[|calls| - 1];
      if Replaces(c, id) then []
      else if IsView(c, id) && id in Run(stored, before).instances then Views(stored, before, id) + [c.now]
      else Views(stored, before, id)
  }

  lemma {:induction false} LastViewedIsLastView(stored: map<string, Stored>, calls: seq<Call>, id: string)
    requires id in Run(stored, calls).instances
    ensures var views := Views(stored, calls, id);
      Run(stored, calls).instances[id].lastViewed == if views == [] then None else Some(views[|views| - 1])
  {
    hide Apply, Restarted;
    if calls == [] {
      InitiallyUnmarked(stored, id);
    } else {
      var before, c := calls[..|calls| - 1], calls[|calls| - 1];
      MarksAfter(Run(stored, before), c, id);
      if !Replaces(c, id) { LastViewedIsLastView(stored, before, id); }
    }
  }

  /** With a clock that does not run backwards, neither pass ever chooses a session that was viewed within the
    timeout. */
  lemma ViewedIsNeverChosen(
      stored: map<string, Stored>, calls: seq<Call>, id: string, view: int,
      prompts: set<string>, now: int, timeout: int)
    requires var views := Views(stored, calls, id);
      view in views && forall i | 0 <= i < |views| :: views[i] <= views[|views| - 1]
    requires now - view <= timeout
    ensures id !in PollChooses(Run(stored, calls), now, timeout)
    ensures id !in CheckChooses(Run(stored, calls), prompts, now, timeout)
  {
    hide Run, Views;
    var s := Run(stored, calls);
    if id in s.instances {
      LastViewedIsLastView(stored, calls, id);
      MarkKeepsView(s.instances[id], prompts, now);
    }
  }

  /** What the poll chooses, from the history alone: a session that is not paused, whose present unbroken series of
    prompts began longer ago than the timeout, and which has not been viewed within it. */
  lemma PollChoosesByHistory(stored: map<string, Stored>, calls: seq<Call>, id: string, now: int, timeout: int)
    ensures var s, seen, views := Run(stored, calls), Observations(stored, calls, id), Views(stored, calls, id);
      id in PollChooses(s, now, timeout)
      <==>
      && timeout > 0 && id in s.instances && s.instances[id].status != Paused
      && (exists k :: SeriesFrom(seen, k) && now - seen[k].now > timeout)
      && (views == [] || now - views[|views| - 1] > timeout)
  {
    hide Run, Views, Observations, SeriesFrom;
    var s, seen := Run(stored, calls), Observations(stored, calls, id);
    if id in s.instances {
      IdleSinceIsFirstPrompt(stored, calls, id);
      LastViewedIsLastView(stored, calls, id);
      forall k, m | SeriesFrom(seen, k) && SeriesFrom(seen, m) ensures k == m { OneSeries(seen, k, m); }
      forall k | SeriesFrom(seen, k) ensures 0 <= k < |seen| && seen[|seen| - 1].prompt { SeriesLasts(seen, k); }
    }
  }

  lemma OneSeries(seen: seq<Observation>, k: int, m: int)
    requires SeriesFrom(seen, k) && SeriesFrom(seen, m)
    ensures k == m
  {
  }

  lemma SeriesLasts(seen: seq<Observation>, k: int)
    requires SeriesFrom(seen, k)
    ensures 0 <= k < |seen| && seen[|seen| - 1].prompt
  {
  }

  // ----- The two passes compared -----

  /** The background check only chooses sessions that show their prompt at that pass. */
  lemma CheckChoosesPrompts(s: State, prompts: set<string>, now: int, timeout: int, id: string)
    requires id in CheckChooses(s, prompts, now, timeout)
    ensures s.instances[id].status != Paused && HasPrompt(s.instances[id], prompts)
    ensures timeout >= 0 ==> s.instances[id].idleSince.Some? && now - s.instances[id].idleSince.value > timeout
  {
    hide HasPrompt;
  }

  /** The status poll chooses what the check would choose and, beyond it, exactly the busy sessions whose
    earlier mark is old enough. */
  lemma PollChoosesBusyToo(s: State, prompts: set<string>, now: int, timeout: int, id: string)
    requires timeout > 0
    ensures id in CheckChooses(s, prompts, now, timeout)
       <==> id in PollChooses(s, now, timeout) && HasPrompt(s.instances[id], prompts)
  {
    hide HasPrompt;
  }

  /** The passes choose the same sessions exactly when no session that the poll chooses is busy. */
  lemma PassesAgreeIff(s: State, prompts: set<string>, now: int, timeout: int)
    requires timeout > 0
    ensures PollChooses(s, now, timeout) == CheckChooses(s, prompts, now, timeout)
       <==> forall id | id in s.instances && id in PollChooses(s, now, timeout) :: HasPrompt(s.instances[id], prompts)
  {
    hide HasPrompt, PollChooses, CheckChooses;
    var poll, check := PollChooses(s, now, timeout), CheckChooses(s, prompts, now, timeout);
    forall id: string
      ensures id in poll ==> id in s.instances
      ensures id in check <==> id in poll && id in s.instances && HasPrompt(s.instances[id], prompts)
    {
      ChosenExist(s, now, timeout, id);
      PollChoosesBusyToo(s, prompts, now, timeout, id);
    }
    if poll == check {
      forall id | id in s.instances && id in poll ensures HasPrompt(s.instances[id], prompts) { assert id in check; }
    } else {
      assert exists id: string :: !(id in poll <==> id in check);
    }
  }

  lemma ChosenExist(s: State, now: int, timeout: int, id: string)
    ensures id in PollChooses(s, now, timeout) ==> id in s.instances
  {
  }

  /** The poll reports every session it chose as paused; that is so exactly unless an in-place session's process
    cannot be killed.  Either way the session is flagged and loses its indexer. */
  lemma ChosenIsPausedIff(
      s: State, prompts: set<string>, unkillable: set<string>, now: int, timeout: int, id: string)
    requires Good(s) && id in PollChooses(s, now, timeout) && s.instances[id].started
    ensures var x, t := s.instances[id], Polled(s, prompts, unkillable, now, timeout);
      && id in t.instances && (t.instances[id].status == Paused <==> !(x.inPlace && x.pid != "" && id in unkillable))
      && t.instances[id].autoPaused && id !in t.indexers
  {
    hide Written;
    assert Sound(id, s.instances[id]);
    MarkedIsSound(s.instances[id], prompts, now);
  }

  /** The poll reports of every session, and of no other name, that it shows its prompt exactly if it has been started,
    has a process, and its prompt is visible. */
  lemma ReportedPrompts(s: State, prompts: set<string>, now: int, timeout: int)
    requires Good(s)
    ensures var report := Reported(s, prompts, now, timeout);
      && report.Keys == s.instances.Keys
      && forall id | id in report :: report[id].hasPrompt <==>
           s.instances[id].started && s.instances[id].pid != "" && id in prompts
  {
    forall id | id in s.instances ensures s.instances[id].title == id { assert Sound(id, s.instances[id]); }
  }

  /** What the poll reports of all sessions is what it leaves them in, exactly if it could pause all it chose. */
  lemma ReportIsTrueIff(s: State, prompts: set<string>, unkillable: set<string>, now: int, timeout: int)
    requires Good(s)
    ensures var report, t := Reported(s, prompts, now, timeout), Polled(s, prompts, unkillable, now, timeout);
      (forall id | id in s.instances :: id in t.instances && report[id].status == t.instances[id].status
                                        && report[id].autoPaused == t.instances[id].autoPaused)
      <==>
      (forall id | id in s.instances && id in PollChooses(s, now, timeout) ::
         s.instances[id].started && !(s.instances[id].inPlace && s.instances[id].HasProcess() && id in unkillable))
  {
    hide Written, PollChooses;
    var report, t := Reported(s, prompts, now, timeout), Polled(s, prompts, unkillable, now, timeout);
    forall id | id in s.instances
      ensures (report[id].status == t.instances[id].status && report[id].autoPaused == t.instances[id].autoPaused)
         <==> (id in PollChooses(s, now, timeout) ==>
               var x := s.instances[id];
               x.started && !(x.inPlace && x.HasProcess() && id in unkillable))
    {
      OneReportIsTrueIff(s, prompts, unkillable, now, timeout, id);
    }
  }

  lemma OneReportIsTrueIff(s: State, prompts: set<string>, unkillable: set<string>, now: int, timeout: int, id: string)
    requires Good(s) && id in s.instances
    ensures var report, t := Reported(s, prompts, now, timeout), Polled(s, prompts, unkillable, now, timeout);
      var x := s.instances[id];
      id in t.instances &&
      (report[id].status == t.instances[id].status && report[id].autoPaused == t.instances[id].autoPaused
       <==> id !in PollChooses(s, now, timeout) || (x.started && !(x.inPlace && x.HasProcess() && id in unkillable)))
  {
    hide Written;
    assert Sound(id, s.instances[id]);
    MarkedIsSound(s.instances[id], prompts, now);
    MarkKeepsFlag(s.instances[id], prompts, now);
  }

  lemma MarkKeepsFlag(x: Inst, prompts: set<string>, now: int)
    ensures var y := Marked(x, prompts, now); y.autoPaused == x.autoPaused && y.inPlace == x.inPlace && y.pid == x.pid
  {
  }

  /** A session that is created, started and seen once with its prompt. */
  function SeenSession(): Inst {
    NewInstance("a", "", true, false).(pid := "pty-1", status := Running, started := true, idleSince := Some(0))
  }

  lemma SeenSessionIsReached(timeout: int)
    requires timeout > 0
    ensures exists calls :: Run(map[], calls).instances == map["a" := SeenSession()]
  {
    hide Written, Run;
    var create := Create("a", "", true, false, true);
    var start := Start("a", StartEnv(true, true, Spawns("pty-1")));
    var look := Poll({"a"}, {}, 0, timeout);
    RunStep(map[], [], create);
    RunStep(map[], [] + [create], start);
    RunStep(map[], [] + [create] + [start], look);
    InitiallyNone();
    assert Run(map[], [] + [create]).instances == map["a" := NewInstance("a", "", true, false)];
    assert Run(map[], [] + [create] + [start]).instances == map["a" := SeenSession().(idleSince := None)];
    var s := Run(map[], [] + [create] + [start] + [look]);
    assert s.instances == map["a" := SeenSession()];
  }

  lemma InitiallyNone()
    ensures Run(map[], []).instances == map[]
  {
  }

  /** A run in which the status poll pauses a session that is running and shows no prompt, for any timeout. */
  lemma BusySessionIsPaused(timeout: int)
    requires timeout > 0
    ensures exists calls ::
      var s := Run(map[], calls);
      var t := Apply(s, Poll({}, {}, timeout + 1, timeout));
      && "a" in s.instances && s.instances["a"].status == Running && !HasPrompt(s.instances["a"], {})
      && "a" in t.instances && t.instances["a"].status == Paused
  {
    hide Written, Run;
    SeenSessionIsReached(timeout);
    var calls :| Run(map[], calls).instances == map["a" := SeenSession()];
    var s := Run(map[], calls);
    var t := Apply(s, Poll({}, {}, timeout + 1, timeout));
    assert "a" in PollChooses(s, timeout + 1, timeout);
    assert t.instances["a"].status == Paused;
  }
}
