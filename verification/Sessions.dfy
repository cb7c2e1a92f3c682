/** Sessions and their indexers: what every API call does to them, as functions on values. */
module Sessions {
  import opened Wrappers

  datatype Status = Running | Ready | Loading | Paused

  /** Process managers hand out names that are never empty; the empty string stands for no process. */
  type ProcessId = s: string | s != "" witness "pty-1"

  /** `None` stands for the zero time. */
  datatype Inst = Inst(
    title: string, hostId: string, inPlace: bool, claude: bool,
    status: Status, started: bool, pid: string,
    idleSince: Option<int>, lastViewed: Option<int>, autoPaused: bool)
  {
    predicate HasProcess() { pid != "" }
    predicate Local() { hostId == "" }
  }

  // ----- What the world answers -----

  /** A resumed conversation may turn out to be missing; then the process is killed and a fresh one spawned. */
  datatype Spawn = SpawnFails | Spawns(id: ProcessId) | FallsBack(first: ProcessId, second: Option<ProcessId>)

  /** `branchCheckedOut` is None when the check fails. */
  datatype ResumeEnv = ResumeEnv(branchCheckedOut: Option<bool>, worktreeExists: bool, setupOk: bool, spawn: Spawn)

  datatype StartEnv = StartEnv(worktreeOk: bool, setupOk: bool, spawn: Spawn)

  datatype OpenEnv = OpenEnv(connected: bool, hasProcessManager: bool, exited: bool, resume: ResumeEnv)

  // ----- One instance -----

  function NewInstance(title: string, hostId: string, inPlace: bool, claude: bool): Inst {
    Inst(title, hostId, inPlace, claude, Ready, false, "", None, None, false)
  }

  /** The process name afterwards, and whether a process runs. */
  function SpawnProcess(x: Inst, resume: bool, spawn: Spawn): (string, bool) {
    match spawn
    case SpawnFails => (x.pid, false)
    case Spawns(id) => (id, true)
    case FallsBack(first, second) =>
      if !(x.claude && resume) then (first, true)
      else if second.Some? then (second.value, true)
      else (first, false)
  }

  function Started(x: Inst, env: StartEnv): (Inst, bool) {
    if x.title == "" || (!x.inPlace && !(env.worktreeOk && env.setupOk)) then (x, false)
    else
      var (pid, ok) := SpawnProcess(x, false, env.spawn);
      if ok then (x.(pid := pid, status := Running, started := true), true) else (x.(pid := pid), false)
  }

  function PausedBy(x: Inst, killOk: bool): (Inst, bool) {
    if !x.started || x.status == Paused then (x, false)
    else if x.inPlace && x.HasProcess() && !killOk then (x, false)
    else (x.(pid := "", status := Paused), true)
  }

  function ForcePaused(x: Inst): Inst { x.(pid := "", status := Paused) }

  predicate WorktreeReady(x: Inst, env: ResumeEnv) {
    x.inPlace || (env.branchCheckedOut == Some(false) && (env.worktreeExists || env.setupOk))
  }

  function Resumed(x: Inst, env: ResumeEnv): (Inst, bool) {
    if !x.started || x.status != Paused || !WorktreeReady(x, env) then (x, false)
    else
      var (pid, ok) := SpawnProcess(x, true, env.spawn);
      if ok then (x.(pid := pid, status := Running), true) else (x.(pid := pid), false)
  }

  // ----- The whole -----

  /** What is written to disk about a session. */
  datatype Stored = Stored(hostId: string, inPlace: bool, claude: bool)

  datatype State = State(instances: map<string, Inst>, indexers: set<string>, stored: map<string, Stored>)

  function Image(x: Inst): Stored { Stored(x.hostId, x.inPlace, x.claude) }

  /** Only sessions that have been started are written. */
  function Written(instances: map<string, Inst>): map<string, Stored> {
    map id | id in instances && instances[id].started :: Image(instances[id])
  }

  function Save(s: State): State { s.(stored := Written(s.instances)) }

  function Put(s: State, id: string, x: Inst): State { s.(instances := s.instances[id := x]) }

  function Restored(id: string, image: Stored): Inst {
    NewInstance(id, image.hostId, image.inPlace, image.claude).(status := Paused, started := true)
  }

  /** Whatever was written comes back as a paused session that had been started. */
  function Restarted(s: State): State {
    State(map id | id in s.stored :: Restored(id, s.stored[id]), {}, s.stored)
  }

  function Created(s: State, title: string, hostId: string, inPlace: bool, claude: bool, hostOk: bool): State {
    if hostId != "" && !hostOk then s
    else Save(Put(s, title, NewInstance(title, hostId, inPlace, claude)))
  }

  /** A remote session whose process has exited is put to pause first. */
  function Checked(x: Inst, env: OpenEnv): Inst {
    if !x.Local() && x.HasProcess() && x.status != Paused && env.exited then ForcePaused(x) else x
  }

  function Opened(s: State, id: string, env: OpenEnv, now: int): (State, Option<string>) {
    if id !in s.instances then (s, None)
    else
      var x := s.instances[id].(lastViewed := Some(now));
      if !x.Local() && !(env.connected && env.hasProcessManager) then (Put(s, id, x), None)
      else
        var y := Checked(x, env);
        if y.status == Paused then
          var (z, ok) := Resumed(y, env.resume);
          if !ok then (Put(s, id, z), None)
          else Shown(Save(Put(s, id, z)), id, z)
        else Shown(Put(s, id, y), id, y)
  }

  /** Local sessions get an indexer; then the process name is the answer, if there is one. */
  function Shown(s: State, id: string, x: Inst): (State, Option<string>) {
    (if x.Local() then s.(indexers := s.indexers + {id}) else s, if x.HasProcess() then Some(x.pid) else None)
  }

  function Touched(s: State, id: string, now: int): State {
    if id in s.instances then Put(s, id, s.instances[id].(lastViewed := Some(now))) else s
  }

  function StartedSession(s: State, id: string, env: StartEnv): (State, bool) {
    if id !in s.instances then (s, false)
    else if s.instances[id].started then (s, true)
    else
      var (x, ok) := Started(s.instances[id].(status := Loading), env);
      if !ok then (Save(s.(instances := s.instances - {id}, indexers := s.indexers - {id})), false)
      else
        var t := Save(Put(s, id, x));
        (if x.Local() then t.(indexers := t.indexers + {id}) else t, true)
  }

  function PausedSession(s: State, id: string, killOk: bool): (State, bool) {
    if id !in s.instances then (s, false)
    else
      var t := s.(indexers := s.indexers - {id});
      var (x, ok) := PausedBy(s.instances[id], killOk);
      if ok then (Save(Put(t, id, x)), true) else (t, false)
  }

  function ResumedSession(s: State, id: string, env: ResumeEnv): (State, bool) {
    if id !in s.instances then (s, false)
    else
      var (x, ok) := Resumed(s.instances[id], env);
      if ok then (Save(Put(s, id, x.(autoPaused := false))), true) else (Put(s, id, x), false)
  }

  function Killed(s: State, id: string): (State, bool) {
    if id !in s.instances then (s, false)
    else (Save(s.(instances := s.instances - {id}, indexers := s.indexers - {id})), true)
  }

  function Indexed(s: State, id: string): State {
    var t := s.(indexers := s.indexers - {id});
    if id in s.instances && s.instances[id].status != Paused && s.instances[id].Local() then
      t.(indexers := t.indexers + {id})
    else t
  }

  // ----- Idle sessions -----

  /** A prompt shows only where there is a process. */
  predicate HasPrompt(x: Inst, prompts: set<string>) { x.started && x.HasProcess() && x.title in prompts }

  function MarkIdle(x: Inst, now: int): Inst { if x.idleSince.None? then x.(idleSince := Some(now)) else x }

  function MarkActive(x: Inst): Inst { x.(idleSince := None) }

  function Marked(x: Inst, prompts: set<string>, now: int): Inst {
    if x.status == Paused then x else if HasPrompt(x, prompts) then MarkIdle(x, now) else MarkActive(x)
  }

  /** Longer ago than the timeout; the zero time always is. */
  predicate LongAgo(t: Option<int>, now: int, timeout: int) { t.None? || now - t.value > timeout }

  predicate Idle(x: Inst, now: int, timeout: int) {
    x.status != Paused && x.idleSince.Some? && LongAgo(x.idleSince, now, timeout) && LongAgo(x.lastViewed, now, timeout)
  }

  /** The status poll decides on the marks of earlier passes. */
  function PollChooses(s: State, now: int, timeout: int): set<string> {
    set id | id in s.instances && timeout > 0 && Idle(s.instances[id], now, timeout)
  }

  /** The background check decides on the marks of this pass. */
  function CheckChooses(s: State, prompts: set<string>, now: int, timeout: int): set<string> {
    set id | id in s.instances && Idle(Marked(s.instances[id], prompts, now), now, timeout)
  }

  /** What the poll tells the frontend of a session. */
  datatype Report = Report(status: Status, hasPrompt: bool, autoPaused: bool)

  /** A chosen session is reported as paused before it is known to be. */
  function Reported(s: State, prompts: set<string>, now: int, timeout: int): map<string, Report> {
    map id | id in s.instances ::
      var x := s.instances[id];
      if id in PollChooses(s, now, timeout) then Report(Paused, HasPrompt(x, prompts), true)
      else Report(x.status, HasPrompt(x, prompts), x.autoPaused)
  }

  function AllMarked(s: State, prompts: set<string>, now: int): State {
    s.(instances := map id | id in s.instances :: Marked(s.instances[id], prompts, now))
  }

  function AutoPaused(x: Inst, unkillable: set<string>): Inst {
    PausedBy(x.(autoPaused := true), x.title !in unkillable).0
  }

  /** The chosen sessions lose their indexers and are paused. */
  function AllPaused(s: State, chosen: set<string>, unkillable: set<string>): State {
    var instances := map id | id in s.instances ::
      if id in chosen then AutoPaused(s.instances[id], unkillable) else s.instances[id];
    State(instances, s.indexers - chosen,
          if exists id | id in chosen && id in s.instances ::
               PausedBy(s.instances[id], s.instances[id].title !in unkillable).1
          then Written(instances) else s.stored)
  }

  function Polled(s: State, prompts: set<string>, unkillable: set<string>, now: int, timeout: int): State {
    AllPaused(AllMarked(s, prompts, now), PollChooses(s, now, timeout), unkillable)
  }

  function CheckedIdle(s: State, prompts: set<string>, unkillable: set<string>, now: int, timeout: int): State {
    AllPaused(AllMarked(s, prompts, now), CheckChooses(s, prompts, now, timeout), unkillable)
  }

  // ----- Calls -----

  datatype Call =
    | Create(title: string, hostId: string, inPlace: bool, claude: bool, hostOk: bool)
    | Open(id: string, openEnv: OpenEnv, now: int)
    | Touch(id: string, now: int)
    | Start(id: string, startEnv: StartEnv)
    | Pause(id: string, killOk: bool)
    | Resume(id: string, resumeEnv: ResumeEnv)
    | Kill(id: string)
    | Index(id: string)
    | StopIndex(id: string)
    | Poll(prompts: set<string>, unkillable: set<string>, now: int, timeout: int)
    | CheckIdle(prompts: set<string>, unkillable: set<string>, now: int, timeout: int)
    | Restart

  function Apply(s: State, c: Call): State {
    match c
    case Create(title, hostId, inPlace, claude, hostOk) => Created(s, title, hostId, inPlace, claude, hostOk)
    case Open(id, env, now) => Opened(s, id, env, now).0
    case Touch(id, now) => Touched(s, id, now)
    case Start(id, env) => StartedSession(s, id, env).0
    case Pause(id, killOk) => PausedSession(s, id, killOk).0
    case Resume(id, env) => ResumedSession(s, id, env).0
    case Kill(id) => Killed(s, id).0
    case Index(id) => Indexed(s, id)
    case StopIndex(id) => s.(indexers := s.indexers - {id})
    case Poll(prompts, unkillable, now, timeout) => Polled(s, prompts, unkillable, now, timeout)
    case CheckIdle(prompts, unkillable, now, timeout) => CheckedIdle(s, prompts, unkillable, now, timeout)
    case Restart => Restarted(s)
  }

  // ----- The invariant -----

  ghost predicate Sound(id: string, x: Inst) {
    && x.title == id
    && (match x.status
        case Running => x.started && x.HasProcess()
        case Paused => x.started
        case Ready => !x.started && !x.HasProcess()
        case Loading => false)
  }

  /** Every indexer belongs to an existing local session that is not paused. */
  ghost predicate IndexersBelong(s: State) {
    forall id | id in s.indexers :: id in s.instances && s.instances[id].Local() && s.instances[id].status != Paused
  }

  ghost predicate Good(s: State) {
    (forall id | id in s.instances :: Sound(id, s.instances[id])) && IndexersBelong(s)
  }

  /** The store holds exactly the sessions that have been started. */
  ghost predicate StoreIsCurrent(s: State) { s.stored == Written(s.instances) }

  /** The one call that can leave an indexer behind: a remote session under a title that has an indexer. */
  predicate TakesOver(s: State, c: Call) {
    c.Create? && c.hostId != "" && c.hostOk && c.title in s.indexers
  }

  // ----- Every call keeps it -----

  lemma StartedIsSound(x: Inst, env: StartEnv)
    requires Sound(x.title, x) && !x.started
    ensures var (y, ok) := Started(x.(status := Loading), env);
      ok ==> Sound(x.title, y) && y.status == Running && Image(y) == Image(x)
  {
  }

  lemma PausedIsSound(x: Inst, killOk: bool)
    requires Sound(x.title, x)
    ensures var (y, ok) := PausedBy(x, killOk);
      && Sound(x.title, y) && Image(y) == Image(x) && y.started == x.started
      && (ok ==> y.status == Paused && !y.HasProcess()) && (!ok ==> y == x)
  {
  }

  lemma ResumedIsSound(x: Inst, env: ResumeEnv)
    requires Sound(x.title, x)
    ensures var (y, ok) := Resumed(x, env);
      && Sound(x.title, y) && Image(y) == Image(x) && y.started == x.started
      && (ok ==> x.status == Paused && y.status == Running) && (!ok ==> y.status == x.status)
  {
  }

  lemma MarkedIsSound(x: Inst, prompts: set<string>, now: int)
    requires Sound(x.title, x)
    ensures var y := Marked(x, prompts, now);
      Sound(x.title, y) && Image(y) == Image(x) && y.started == x.started && y.status == x.status
  {
  }

  lemma CreateKeepsIff(s: State, title: string, hostId: string, inPlace: bool, claude: bool, hostOk: bool)
    requires Good(s)
    ensures Good(Created(s, title, hostId, inPlace, claude, hostOk))
       <==> !TakesOver(s, Create(title, hostId, inPlace, claude, hostOk))
  {
    var t := Created(s, title, hostId, inPlace, claude, hostOk);
    if TakesOver(s, Create(title, hostId, inPlace, claude, hostOk)) {
      assert title in t.indexers && !t.instances[title].Local();
    }
  }

  lemma OpenKeeps(s: State, id: string, env: OpenEnv, now: int)
    requires Good(s)
    ensures Good(Opened(s, id, env, now).0)
  {
    hide Resumed;
    if id in s.instances {
      var x := s.instances[id].(lastViewed := Some(now));
      assert Sound(id, x);
      var y := Checked(x, env);
      assert Sound(id, y);
      ResumedIsSound(y, env.resume);
    }
  }

  lemma StartKeeps(s: State, id: string, env: StartEnv)
    requires Good(s)
    ensures Good(StartedSession(s, id, env).0)
  {
    hide Started;
    if id in s.instances && !s.instances[id].started { StartedIsSound(s.instances[id], env); }
  }

  lemma PauseKeeps(s: State, id: string, killOk: bool)
    requires Good(s)
    ensures Good(PausedSession(s, id, killOk).0)
  {
    hide PausedBy;
    if id in s.instances { PausedIsSound(s.instances[id], killOk); }
  }

  lemma ResumeKeeps(s: State, id: string, env: ResumeEnv)
    requires Good(s)
    ensures Good(ResumedSession(s, id, env).0)
  {
    hide Resumed;
    if id in s.instances { ResumedIsSound(s.instances[id], env); }
  }

  /** A pass marks and pauses: sound if it only pauses what it takes the indexers from. */
  lemma PassKeeps(s: State, prompts: set<string>, now: int, chosen: set<string>, unkillable: set<string>)
    requires Good(s)
    ensures Good(AllPaused(AllMarked(s, prompts, now), chosen, unkillable))
  {
    hide PausedBy, Marked, Written;
    var m := AllMarked(s, prompts, now);
    var t := AllPaused(m, chosen, unkillable);
    forall id | id in s.instances
      ensures Sound(id, t.instances[id]) && Image(t.instances[id]) == Image(s.instances[id])
      ensures id !in chosen ==> t.instances[id].status == s.instances[id].status
    {
      MarkedIsSound(s.instances[id], prompts, now);
      var x := m.instances[id].(autoPaused := true);
      assert Sound(id, x) && Image(x) == Image(s.instances[id]);
      PausedIsSound(x, x.title !in unkillable);
    }
  }

  /** Every call keeps the invariant, exactly unless it takes over the title of an indexed session. */
  lemma CallKeepsGoodIff(s: State, c: Call)
    requires Good(s)
    ensures Good(Apply(s, c)) <==> !TakesOver(s, c)
  {
    hide Good, Created, Opened, Touched, StartedSession, PausedSession, ResumedSession, AllMarked, AllPaused,
      PollChooses, CheckChooses;
    match c
    case Create(title, hostId, inPlace, claude, hostOk) => CreateKeepsIff(s, title, hostId, inPlace, claude, hostOk);
    case Open(id, env, now) => OpenKeeps(s, id, env, now);
    case Touch(id, now) => TouchKeeps(s, id, now);
    case Start(id, env) => StartKeeps(s, id, env);
    case Pause(id, killOk) => PauseKeeps(s, id, killOk);
    case Resume(id, env) => ResumeKeeps(s, id, env);
    case Kill(id) => RemovalKeeps(s, id);
    case Index(id) => RemovalKeeps(s, id);
    case StopIndex(id) => RemovalKeeps(s, id);
    case Poll(prompts, unkillable, now, timeout) =>
      PassKeeps(s, prompts, now, PollChooses(s, now, timeout), unkillable);
    case CheckIdle(prompts, unkillable, now, timeout) =>
      PassKeeps(s, prompts, now, CheckChooses(s, prompts, now, timeout), unkillable);
    case Restart => RestartIsGood(s);
  }

  lemma TouchKeeps(s: State, id: string, now: int)
    requires Good(s)
    ensures Good(Touched(s, id, now))
  {
  }

  lemma RemovalKeeps(s: State, id: string)
    requires Good(s)
    ensures Good(Killed(s, id).0) && Good(Indexed(s, id)) && Good(s.(indexers := s.indexers - {id}))
  {
  }

  lemma RestartIsGood(s: State)
    ensures Good(Restarted(s))
  {
  }
}
