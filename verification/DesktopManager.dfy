/**
 * The desktop agent manager: operations run one at a time from a queue, each in segments between
 * awaited calls, while status callbacks of started runtimes arrive at any moment
 * (packages/local-agent/src/desktop/desktop-agent-manager.ts).
 */
module DesktopManager {
  import opened Common

  // ---- Profiles (desktop-profile-store.ts)

  datatype Connection = Connection(
    backendUrl: string, frontendUrl: string, agentId: string, authToken: string, projectKeyPrefix: string,
    ownerName: string)

  datatype Draft = Draft(path: string, name: string, repoFullName: string, settings: string)

  datatype Project = Project(draft: Draft, key: string)

  datatype Profile = Profile(connection: Connection, projects: seq<Project>)

  predicate KeyChar(c: char) {
    'A' <= c <= 'Z' || 'a' <= c <= 'z' || '0' <= c <= '9' || c == '.' || c == '_' || c == '-'
  }

  predicate KeyChars(s: string) {
    forall i :: 0 <= i < |s| ==> KeyChar(s[i])
  }

  predicate ValidKey(s: string) {
    1 <= |s| <= 128 && KeyChars(s)
  }

  predicate ValidConnection(c: Connection) {
    && ValidKey(c.agentId) && |c.authToken| >= 32
    && 2 <= |c.projectKeyPrefix| <= 100 && KeyChars(c.projectKeyPrefix)
    && c.projectKeyPrefix[|c.projectKeyPrefix| - 1] == '-'
  }

  predicate ValidProfile(p: Profile) {
    ValidConnection(p.connection) && |p.projects| <= 100
    && forall i :: 0 <= i < |p.projects| ==> ValidKey(p.projects[i].key)
  }

  /** The random part of a project key: the first twelve characters of a UUID. */
  type Suffix = s: string | |s| == 12 && KeyChars(s) witness "000000000000"

  predicate HasPrefix(key: string, prefix: string) {
    prefix <= key
  }

  predicate Prefixed(p: Profile) {
    forall i :: 0 <= i < |p.projects| ==> HasPrefix(p.projects[i].key, p.connection.projectKeyPrefix)
  }

  predicate KeysUnique(projects: seq<Project>) {
    forall i, j :: 0 <= i < j < |projects| ==> projects[i].key != projects[j].key
  }

  predicate PathsUnique(projects: seq<Project>) {
    forall i, j :: 0 <= i < j < |projects| ==> projects[i].draft.path != projects[j].draft.path
  }

  predicate Good(p: Profile) {
    ValidProfile(p) && Prefixed(p) && KeysUnique(p.projects) && PathsUnique(p.projects)
  }

  function FindKey(projects: seq<Project>, key: string): Option<Project> {
    if projects == [] then None
    else if projects[0].key == key then Some(projects[0]) else FindKey(projects[1..], key)
  }

  function FindPath(projects: seq<Project>, path: string): Option<Project> {
    if projects == [] then None
    else if projects[0].draft.path == path then Some(projects[0]) else FindPath(projects[1..], path)
  }

  function WithoutKey(projects: seq<Project>, key: string): seq<Project> {
    Filter((p: Project) => p.key != key, projects)
  }

  /** The profile after a project was configured; a project with the same key gives way. */
  function WithProject(p: Profile, draft: Draft, repoFullName: string, suffix: Suffix): Profile {
    var existing := FindPath(p.projects, draft.path);
    var key := if existing.Some? then existing.value.key else p.connection.projectKeyPrefix + suffix;
    p.(projects := WithoutKey(p.projects, key) + [Project(draft.(repoFullName := repoFullName), key)])
  }

  /** The projects under the keys of a new connection. */
  function Rekeyed(projects: seq<Project>, prefix: string, suffixes: seq<Suffix>): (r: seq<Project>)
    requires |suffixes| == |projects|
    ensures |r| == |projects|
    ensures forall i :: 0 <= i < |r| ==> r[i].draft == projects[i].draft && r[i].key == prefix + suffixes[i]
  {
    seq(|projects|, i requires 0 <= i < |projects| => projects[i].(key := prefix + suffixes[i]))
  }

  // ---- The manager

  datatype Status = Stopped | Starting | Online | Reconnecting | Error

  /** The manager's own messages, and the text of any other error. */
  datatype Message =
    | NotInitialized | NotEditable | NotPaired | UnknownProject | CodeExpired | CodeUnavailable | ForeignProject
    | AlreadyRunning | PairingUnfinished | NoProjects | InvalidProfile | NotSaved | PairedButNotSaved
    | Other(text: string)

  datatype Pairing = Pairing(
    deviceCode: string, userCode: string, expiresAt: int, intervalSeconds: int, backendUrl: string, frontendUrl: string)

  datatype Op =
    | Initialize | BeginPairing | PollPairing | CancelPairing
    | SaveProject(draft: Draft) | RemoveProject(key: string)
    | CheckTools | LoginCodex | RunReadiness(key: string)
    | Start | Stop

  /** How the awaited part of an operation ends. */
  datatype Outcome =
    | Failed(message: Message)
    | PairingUnavailable
    | Loaded
    | Begun(started: Pairing, now: int)
    | Pending
    | Claimed(agentId: string, authToken: string, projectKeyPrefix: string, ownerName: string,
              suffixes: seq<Suffix>, saved: bool)
    | Configured(repoFullName: string, suffix: Suffix, saved: bool)
    | Written(saved: bool)
    | Done
    | Checked(ok: bool)

  /** The manager's fields, the running operation, and what the manager did to its surroundings. */
  datatype State = State(
    initialized: bool, profile: Option<Profile>, pairing: Option<Pairing>, nextPairingPoll: int,
    runtime: Option<nat>, runtimeGeneration: nat,
    status: Status, running: bool, busy: bool, error: Option<Message>,
    projects: seq<Project>, readiness: map<string, bool>,
    current: Option<Op>,
    stored: Option<Profile>,  // the saved profile file
    live: set<nat>,           // the runtimes started and not stopped, by generation
    claims: seq<int>)         // when the current pairing was claimed

  function Initial(stored: Option<Profile>): State {
    State(false, None, None, 0, None, 0, Stopped, false, false, None, [], map[], None, stored, {}, [])
  }

  lemma ProfileKnown(s: State)
    requires ProfileError(s).None?
    ensures s.initialized && s.profile.Some?
  {
  }

  function Succeed(s: State): State {
    s.(current := None, error := None)
  }

  function Fail(s: State, message: Message): State {
    s.(current := None, error := Some(message))
  }

  function ClearPairing(s: State): State {
    s.(pairing := None)
  }

  function Publish(s: State, p: Profile): State {
    s.(profile := Some(p), stored := Some(p), projects := p.projects)
  }

  function Halted(s: State): State {
    s.(runtime := None, runtimeGeneration := s.runtimeGeneration + 1,
       running := false, status := Stopped, busy := false)
  }

  function StartFailed(s: State): State {
    s.(runtimeGeneration := s.runtimeGeneration + 1, status := Error, busy := false)
  }

  /** Why the configuration cannot be changed now, if it cannot. */
  function EditError(s: State): Option<Message> {
    if !s.initialized then Some(NotInitialized)
    else if s.runtime.Some? || (s.status != Stopped && s.status != Error) then Some(NotEditable)
    else None
  }

  function ProfileError(s: State): Option<Message> {
    if !s.initialized then Some(NotInitialized) else if s.profile.None? then Some(NotPaired) else None
  }

  /** An operation that changes the configuration, and needs no profile. */
  function BeginEditing(s: State, op: Op): (r: State)
    ensures EndsQuietly(s, r) || (r == s.(current := Some(op)) && EditError(s).None?)
  {
    if EditError(s).Some? then Fail(s, EditError(s).value) else s.(current := Some(op))
  }

  /** An operation on the profile, perhaps on one of its projects. */
  function BeginOnProject(s: State, op: Op, edits: bool, key: Option<string>): (r: State)
    ensures EndsQuietly(s, r)
         || (r == s.(current := Some(op)) && (edits ==> EditError(s).None?) && ProfileError(s).None?
             && (key.Some? ==> FindKey(s.profile.value.projects, key.value).Some?))
  {
    if edits && EditError(s).Some? then Fail(s, EditError(s).value)
    else if ProfileError(s).Some? then Fail(s, ProfileError(s).value)
    else if key.Some? && FindKey(s.profile.value.projects, key.value).None? then Fail(s, UnknownProject)
    else s.(current := Some(op))
  }

  function BeginPoll(s: State, now: int): State {
    if s.pairing.None? then Succeed(s)
    else if EditError(s).Some? then Fail(s, EditError(s).value)
    else if s.pairing.value.expiresAt <= now then Fail(ClearPairing(s), CodeExpired)
    else if now < s.nextPairingPoll then Succeed(s)
    else s.(current := Some(PollPairing), nextPairingPoll := now + s.pairing.value.intervalSeconds * 1000,
            claims := s.claims + [now])
  }

  function BeginStart(s: State): State {
    if s.runtime.Some? then Fail(s, AlreadyRunning)
    else if s.pairing.Some? then Fail(s, PairingUnfinished)
    else if ProfileError(s).Some? then Fail(s, ProfileError(s).value)
    else if s.profile.value.projects == [] then Fail(s, NoProjects)
    else s.(current := Some(Start), status := Starting, error := None, runtimeGeneration := s.runtimeGeneration + 1)
  }

  /** The segment of an operation before its first awaited call. */
  function Begin(s: State, op: Op, now: int): State {
    if s.current.Some? then s
    else
      match op
      case Initialize => if s.initialized then Succeed(s) else s.(current := Some(op))
      case BeginPairing => BeginEditing(s, op)
      case PollPairing => BeginPoll(s, now)
      case CancelPairing => Succeed(ClearPairing(s))
      case SaveProject(_) => BeginOnProject(s, op, true, None)
      case RemoveProject(key) => BeginOnProject(s, op, true, Some(key))
      case CheckTools => s.(current := Some(op))
      case LoginCodex => BeginEditing(s, op)
      case RunReadiness(key) => BeginOnProject(s, op, false, Some(key))
      case Start => BeginStart(s)
      case Stop => if s.runtime.Some? then s.(current := Some(op)) else Succeed(Halted(s))
  }

  function EndInitialize(s: State): State {
    Succeed(s.(initialized := true, profile := s.stored,
               projects := if s.stored.Some? then s.stored.value.projects else s.projects))
  }

  function EndBegun(s: State, started: Pairing, now: int): State {
    if started.expiresAt <= now then Fail(s, CodeExpired)
    else Succeed(s.(pairing := Some(started), nextPairingPoll := 0, claims := []))
  }

  function EndReadiness(s: State, key: string, ok: bool): State
    requires s.profile.Some?
  {
    if !Prefixed(s.profile.value) then Fail(s, ForeignProject)
    else Succeed(s.(readiness := s.readiness[key := ok]))
  }

  /** The profile after a claim: the new connection, and the projects under new keys. */
  function ClaimedProfile(s: State, out: Outcome): Profile
    requires s.pairing.Some? && out.Claimed? && |out.suffixes| == |ProjectsOf(s.profile)|
  {
    var connection := Connection(s.pairing.value.backendUrl, s.pairing.value.frontendUrl, out.agentId, out.authToken,
                                 out.projectKeyPrefix, out.ownerName);
    Profile(connection, Rekeyed(ProjectsOf(s.profile), out.projectKeyPrefix, out.suffixes))
  }

  function EndPoll(s: State, out: Outcome): State
    requires s.pairing.Some?
  {
    if out.Pending? then Succeed(s)
    else if !out.Claimed? || |out.suffixes| != |ProjectsOf(s.profile)| then s
    else
      var next := ClaimedProfile(s, out);
      if !ValidProfile(next) then Fail(s, InvalidProfile)
      else if !out.saved then Fail(ClearPairing(s), PairedButNotSaved)
      else Succeed(Publish(ClearPairing(s.(readiness := map[])), next))
  }

  function EndSave(s: State, draft: Draft, out: Outcome): State
    requires s.profile.Some?
  {
    match out
    case Configured(repoFullName, suffix, saved) =>
      var next := WithProject(s.profile.value, draft, repoFullName, suffix);
      if !ValidProfile(next) then Fail(s, InvalidProfile)
      else if !saved then Fail(s, NotSaved)
      else Succeed(Publish(s.(readiness := map[]), next))
    case _ => s
  }

  function EndRemove(s: State, key: string, out: Outcome): State
    requires s.profile.Some?
  {
    match out
    case Written(saved) =>
      var next := s.profile.value.(projects := WithoutKey(s.profile.value.projects, key));
      if !saved then Fail(s, NotSaved)
      else Succeed(Publish(s.(readiness := s.readiness - {key}), next))
    case _ => s
  }

  function EndStart(s: State): State
    requires s.profile.Some?
  {
    if !Prefixed(s.profile.value) then Fail(StartFailed(s), ForeignProject)
    else Succeed(s.(runtime := Some(s.runtimeGeneration), live := s.live + {s.runtimeGeneration}, running := true))
  }

  function EndStop(s: State): State {
    Succeed(Halted(s.(live := s.live - if s.runtime.Some? then {s.runtime.value} else {})))
  }

  /** The segments of the running operation after its awaited calls; an outcome of another operation is ignored. */
  function End(s: State, out: Outcome): State {
    match s.current
    case None => s
    case Some(op) =>
      if out.Failed? then Fail(if op.Start? then StartFailed(s) else s, out.message)
      else if out.PairingUnavailable? then
        if op.BeginPairing? || op.PollPairing? then Fail(ClearPairing(s), CodeUnavailable) else s
      else
        match op
        case Initialize =>
          if out.Loaded? then EndInitialize(s) else s
        case BeginPairing =>
          if out.Begun? then EndBegun(s, out.started, out.now) else s
        case PollPairing => if s.pairing.Some? then EndPoll(s, out) else s
        case CancelPairing => s
        case SaveProject(draft) => if s.profile.Some? then EndSave(s, draft, out) else s
        case RemoveProject(key) => if s.profile.Some? then EndRemove(s, key, out) else s
        case CheckTools => if out.Done? then Succeed(s) else s
        case LoginCodex => if out.Done? then Succeed(s) else s
        case RunReadiness(key) =>
          if out.Checked? && s.profile.Some? then EndReadiness(s, key, out.ok) else s
        case Start => if out.Done? && s.profile.Some? then EndStart(s) else s
        case Stop => if out.Done? then EndStop(s) else s
  }

  /** A status report of the runtime started as `generation`. */
  function OnStatus(s: State, generation: nat, status: Status, busy: bool, message: Option<Message>): State {
    if generation != s.runtimeGeneration then s else s.(status := status, busy := busy, error := message)
  }

  // ---- Runs

  /**
   * The manager, the generations whose runtime may report, the time of the last segment that read the
   * clock, and when the current pairing was received.
   */
  datatype World = World(state: State, started: set<nat>, clock: int, issued: int)

  datatype Step =
    | BeginOp(op: Op, now: int)
    | EndOp(outcome: Outcome)
    | Report(generation: nat, status: Status, busy: bool, message: Option<Message>)

  /** Time does not run backwards, and the random parts of the keys made by one pairing differ. */
  predicate Enabled(w: World, step: Step) {
    match step
    case BeginOp(_, now) => w.clock <= now
    case EndOp(out) =>
      && (out.Claimed? ==> forall i, j :: 0 <= i < j < |out.suffixes| ==> out.suffixes[i] != out.suffixes[j])
      && (out.Begun? ==> w.clock <= out.now && out.started.intervalSeconds > 0)
    case Report(generation, _, _, _) => generation in w.started
  }

  function Take(w: World, step: Step): World {
    match step
    case BeginOp(op, now) =>
      var s := Begin(w.state, op, now);
      World(s,
            if w.state.current.None? && s.current == Some(Start) then w.started + {s.runtimeGeneration} else w.started,
            now, w.issued)
    case EndOp(out) =>
      if out.Begun? then
        World(End(w.state, out), w.started, out.now,
              if w.state.current == Some(BeginPairing) && out.now < out.started.expiresAt then out.now else w.issued)
      else w.(state := End(w.state, out))
    case Report(generation, status, busy, message) => w.(state := OnStatus(w.state, generation, status, busy, message))
  }

  predicate IsRun(w: World, steps: seq<Step>)
    decreases steps
  {
    steps == [] || (Enabled(w, steps[0]) && IsRun(Take(w, steps[0]), steps[1..]))
  }

  function Run(w: World, steps: seq<Step>): World
    decreases steps
  {
    if steps == [] then w else Run(Take(w, steps[0]), steps[1..])
  }

  // ---- The engine's invariant

  predicate Edits(op: Op) {
    op.BeginPairing? || op.PollPairing? || op.SaveProject? || op.RemoveProject? || op.LoginCodex?
  }

  predicate IsStarting(s: State) {
    s.current == Some(Start)
  }

  /** No runtime, none being started, and no generation that could still report. */
  predicate AtRest(w: World) {
    && (w.state.status == Stopped || w.state.status == Error) && !w.state.busy
    && w.state.runtimeGeneration !in w.started
  }

  predicate Engine(w: World) {
    var s := w.state;
    && (forall g :: g in w.started ==> g <= s.runtimeGeneration)
    && s.live == (if s.runtime.Some? then {s.runtime.value} else {})
    && (s.running <==> s.runtime.Some?)
    && (s.runtime.Some? ==>
          s.runtime.value == s.runtimeGeneration && s.runtimeGeneration in w.started && s.pairing.None?)
    && (IsStarting(s) ==>
          s.runtime.None? && s.runtimeGeneration in w.started && s.pairing.None? && s.initialized && s.profile.Some?)
    && (s.runtime.None? && !IsStarting(s) ==> AtRest(w))
    && (s.current == Some(Stop) ==> s.runtime.Some?)
    && (s.current.Some? && Edits(s.current.value) ==> s.runtime.None? && s.initialized)
    && (s.current.Some? && (s.current.value.SaveProject? || s.current.value.RemoveProject?
                            || s.current.value.RunReadiness?)
        ==> s.initialized && s.profile.Some?)
    && (s.current == Some(PollPairing) ==> s.pairing.Some?)
    && (s.pairing.Some? ==> s.initialized)
    && (s.current == Some(Initialize) ==> !s.initialized)
    && (!s.initialized ==> s.runtime.None? && s.profile.None?)
  }

  /** The operation ends, and nothing but the error and perhaps a pending pairing is gone. */
  predicate EndsQuietly(a: State, b: State) {
    && b.current.None? && (b.pairing == a.pairing || b.pairing.None?)
    && b.runtime == a.runtime && b.runtimeGeneration == a.runtimeGeneration && b.live == a.live
    && b.running == a.running && b.status == a.status && b.busy == a.busy
    && b.initialized == a.initialized && b.profile == a.profile && b.stored == a.stored
    && b.projects == a.projects && b.readiness == a.readiness
    && b.nextPairingPoll == a.nextPairingPoll && b.claims == a.claims
  }

  lemma QuietEnds(s: State)
    ensures EndsQuietly(s, Succeed(s)) && EndsQuietly(s, Succeed(ClearPairing(s)))
    ensures forall m :: EndsQuietly(s, Fail(s, m)) && EndsQuietly(s, Fail(ClearPairing(s), m))
  {
  }

  /** What the rules about runtimes look at. */
  predicate SameEngine(a: State, b: State) {
    && a.runtime == b.runtime && a.runtimeGeneration == b.runtimeGeneration && a.live == b.live
    && a.running == b.running && a.status == b.status && a.busy == b.busy
    && (a.initialized ==> b.initialized) && (a.profile.Some? ==> b.profile.Some?)
    && (b.profile.Some? ==> b.initialized)
  }

  /** The operation goes on, or ends without a change to runtimes and with no new pairing. */
  predicate Settles(a: State, b: State) {
    b == a || (SameEngine(a, b) && b.current.None? && (b.pairing.Some? ==> a.pairing.Some?))
  }

  /** The operation starts to wait, and its guards hold. */
  predicate Waits(a: State, op: Op, b: State) {
    && SameEngine(a, b) && a.current.None? && b.current == Some(op) && !op.Start? && !op.CancelPairing?
    && b.pairing == a.pairing && a.initialized == b.initialized && a.profile == b.profile
    && (op.Stop? ==> b.runtime.Some?)
    && (Edits(op) ==> b.runtime.None? && b.initialized)
    && (op.SaveProject? || op.RemoveProject? || op.RunReadiness? ==> b.initialized && b.profile.Some?)
    && (op.PollPairing? ==> b.pairing.Some?)
    && (op.Initialize? ==> !b.initialized)
  }

  lemma EngineSettles(w: World, s: State)
    requires Engine(w) && Settles(w.state, s) && !IsStarting(w.state)
    ensures Engine(w.(state := s))
  {
  }

  lemma EngineWaits(w: World, op: Op, s: State)
    requires Engine(w) && Waits(w.state, op, s)
    ensures Engine(w.(state := s))
  {
  }

  lemma ProjectOpSettlesOrWaits(s: State, op: Op, now: int)
    requires s.current.None? && (op.SaveProject? || op.RemoveProject? || op.RunReadiness?)
    requires s.profile.Some? ==> s.initialized
    ensures Settles(s, Begin(s, op, now)) || Waits(s, op, Begin(s, op, now))
  {
    hide FindKey, Fail, Succeed, BeginOnProject, BeginEditing, BeginPoll, BeginStart;
  }

  lemma PollSettlesOrWaits(s: State, now: int)
    requires s.current.None? && (s.profile.Some? ==> s.initialized)
    ensures Settles(s, BeginPoll(s, now)) || Waits(s, PollPairing, BeginPoll(s, now))
  {
    QuietEnds(s);
    hide Succeed, Fail, ClearPairing;
  }

  lemma PairingOpSettlesOrWaits(s: State, op: Op, now: int)
    requires s.current.None? && (op.BeginPairing? || op.PollPairing? || op.CancelPairing?)
             && (s.profile.Some? ==> s.initialized)
    ensures Settles(s, Begin(s, op, now)) || Waits(s, op, Begin(s, op, now))
  {
    PollSettlesOrWaits(s, now);
    hide BeginPoll;
  }

  lemma BeginSettlesOrWaits(s: State, op: Op, now: int)
    requires s.current.None? && !op.Start? && (op.Stop? ==> s.runtime.Some?) && (s.profile.Some? ==> s.initialized)
    ensures Settles(s, Begin(s, op, now)) || Waits(s, op, Begin(s, op, now))
  {
    if op.SaveProject? || op.RemoveProject? || op.RunReadiness? {
      ProjectOpSettlesOrWaits(s, op, now);
    } else if op.BeginPairing? || op.PollPairing? || op.CancelPairing? {
      PairingOpSettlesOrWaits(s, op, now);
    } else {
      OtherOpSettlesOrWaits(s, op, now);
    }
  }

  lemma OtherOpSettlesOrWaits(s: State, op: Op, now: int)
    requires s.current.None? && (op.Stop? ==> s.runtime.Some?) && (s.profile.Some? ==> s.initialized)
    requires op.Initialize? || op.CheckTools? || op.LoginCodex? || op.Stop?
    ensures Settles(s, Begin(s, op, now)) || Waits(s, op, Begin(s, op, now))
  {
  }

  lemma EngineStarting(w: World, s: State, now: int)
    requires Engine(w) && w.state.current.None? && w.state.runtime.None? && w.state.pairing.None? && w.state.initialized
    requires w.state.profile.Some?
    requires s == w.state.(current := Some(Start), status := Starting, error := None,
                           runtimeGeneration := w.state.runtimeGeneration + 1)
    ensures Engine(w.(state := s, started := w.started + {s.runtimeGeneration}, clock := now))
  {
  }

  lemma EngineStarts(w: World, now: int)
    requires Engine(w) && w.state.current.None?
    ensures Engine(Take(w, BeginOp(Start, now)))
  {
    hide Engine;
    var s := Begin(w.state, Start, now);
    if s.current.Some? {
      EngineStarting(w, s, now);
    } else {
      FailSettles(w, s);
      EngineClock(w.(state := s), now);
    }
  }

  lemma FailSettles(w: World, s: State)
    requires Engine(w) && !IsStarting(w.state) && s == w.state.(current := None, error := s.error)
    ensures Engine(w.(state := s))
  {
  }

  lemma EngineHalts(w: World, s: State, now: int)
    requires Engine(w) && (w.state.current.None? || w.state.current == Some(Stop)) && w.state.pairing == s.pairing
    requires s == Succeed(Halted(w.state)).(live := {})
    ensures Engine(w.(state := s, clock := now))
  {
  }

  lemma EngineClock(w: World, now: int)
    requires Engine(w)
    ensures Engine(w.(clock := now))
    ensures Engine(w.(clock := now, issued := now))
  {
  }

  lemma EngineBegin(w: World, op: Op, now: int)
    requires Engine(w)
    ensures Engine(Take(w, BeginOp(op, now)))
  {
    if w.state.current.Some? {
      EngineClock(w, now);
    } else if op.Start? {
      EngineStarts(w, now);
    } else if op.Stop? && w.state.runtime.None? {
      EngineHalts(w, Begin(w.state, op, now), now);
    } else {
      BeginSettlesOrWaits(w.state, op, now);
      var s := Begin(w.state, op, now);
      if Settles(w.state, s) {
        EngineSettles(w, s);
      } else {
        EngineWaits(w, op, s);
      }
      hide Begin, Settles, Waits, Engine;
      EngineClock(w.(state := s), now);
    }
  }

  lemma EngineReport(w: World, generation: nat, status: Status, busy: bool, message: Option<Message>)
    requires Engine(w) && generation in w.started
    ensures Engine(Take(w, Report(generation, status, busy, message)))
  {
  }

  lemma EngineStartEnds(w: World, out: Outcome)
    requires Engine(w) && IsStarting(w.state)
    ensures Engine(Take(w, EndOp(out)))
  {
    hide Prefixed;
  }

  lemma EnginePaired(w: World, out: Outcome)
    requires Engine(w) && w.state.current == Some(BeginPairing) && out.Begun?
    ensures Engine(Take(w, EndOp(out)))
  {
  }

  lemma PollSettles(s: State, out: Outcome)
    requires s.pairing.Some? && s.initialized
    ensures Settles(s, EndPoll(s, out))
  {
    QuietEnds(s);
    hide ValidProfile, Rekeyed, Fail;
  }

  lemma SaveSettles(s: State, draft: Draft, out: Outcome)
    requires s.profile.Some? && s.initialized
    ensures Settles(s, EndSave(s, draft, out))
  {
    hide ValidProfile, WithProject;
  }

  lemma RemoveSettles(s: State, key: string, out: Outcome)
    requires s.profile.Some? && s.initialized
    ensures Settles(s, EndRemove(s, key, out))
  {
    hide WithoutKey;
  }

  lemma OtherSettles(s: State, out: Outcome)
    requires s.current.Some? && !IsStarting(s) && !s.current.value.Stop?
    requires !s.current.value.PollPairing? && !s.current.value.SaveProject? && !s.current.value.RemoveProject?
    requires s.current == Some(Initialize) ==> s.profile.None?
    requires s.profile.Some? ==> s.initialized
    requires s.current == Some(BeginPairing) ==> !out.Begun?
    ensures Settles(s, End(s, out))
  {
    QuietEnds(s);
    hide EndPoll, EndSave, EndRemove, Prefixed, Fail, ClearPairing;
  }

  lemma EndSettles(s: State, out: Outcome)
    requires s.current.Some? && !IsStarting(s) && !s.current.value.Stop?
    requires s.current == Some(Initialize) ==> s.profile.None?
    requires s.profile.Some? || s.current == Some(PollPairing) ==> s.initialized
    requires s.current == Some(BeginPairing) ==> !out.Begun?
    ensures Settles(s, End(s, out))
  {
    QuietEnds(s);
    hide EndPoll, EndSave, EndRemove, Prefixed, Fail, Succeed, ClearPairing;
    match s.current.value
    case PollPairing =>
      if s.pairing.Some? {
        PollSettles(s, out);
      }
    case SaveProject(draft) =>
      if s.profile.Some? {
        SaveSettles(s, draft, out);
      }
    case RemoveProject(key) =>
      if s.profile.Some? {
        RemoveSettles(s, key, out);
      }
    case _ => OtherSettles(s, out);
  }

  lemma EngineEnd(w: World, out: Outcome)
    requires Engine(w)
    ensures Engine(Take(w, EndOp(out)))
  {
    if w.state.current.Some? {
      if IsStarting(w.state) {
        EngineStartEnds(w, out);
      } else if w.state.current == Some(Stop) {
        if out.Done? {
          EngineHalts(w, End(w.state, out), w.clock);
        }
      } else if w.state.current == Some(BeginPairing) && out.Begun? {
        EnginePaired(w, out);
      } else {
        EndSettles(w.state, out);
        hide End, Settles, Engine;
        EngineSettles(w, End(w.state, out));
      }
    }
  }

  lemma EngineStep(w: World, step: Step)
    requires Engine(w) && Enabled(w, step)
    ensures Engine(Take(w, step))
  {
    match step
    case BeginOp(op, now) => EngineBegin(w, op, now);
    case EndOp(out) => EngineEnd(w, out);
    case Report(generation, status, busy, message) => EngineReport(w, generation, status, busy, message);
  }

  // ---- The profile's invariant

  /** The profile in memory is the saved one, is shown, and is good; readiness is known of its projects only. */
  predicate Consistent(s: State) {
    && (if s.initialized then s.profile == s.stored && s.projects == ProjectsOf(s.profile)
        else s.profile.None? && s.projects == [])
    && (s.stored.Some? ==> Good(s.stored.value))
    && (forall k :: k in s.readiness ==> FindKey(ProjectsOf(s.profile), k).Some?)
  }

  function ProjectsOf(p: Option<Profile>): seq<Project> {
    if p.Some? then p.value.projects else []
  }

  lemma {:induction false} FindKeyFinds(projects: seq<Project>, key: string)
    ensures match FindKey(projects, key)
            case None => forall p :: p in projects ==> p.key != key
            case Some(p) => p in projects && p.key == key
  {
    if projects != [] {
      FindKeyFinds(projects[1..], key);
      assert projects == [projects[0]] + projects[1..];
    }
  }

  lemma {:induction false} FindPathFinds(projects: seq<Project>, path: string)
    ensures match FindPath(projects, path)
            case None => forall p :: p in projects ==> p.draft.path != path
            case Some(p) => p in projects && p.draft.path == path
  {
    if projects != [] {
      FindPathFinds(projects[1..], path);
      assert projects == [projects[0]] + projects[1..];
    }
  }

  lemma UniqueTail(projects: seq<Project>)
    requires projects != [] && KeysUnique(projects) && PathsUnique(projects)
    ensures KeysUnique(projects[1..]) && PathsUnique(projects[1..])
    ensures forall p :: p in projects[1..] ==> p.key != projects[0].key && p.draft.path != projects[0].draft.path
  {
  }

  lemma UniqueCons(head: Project, tail: seq<Project>)
    requires KeysUnique(tail) && PathsUnique(tail)
    requires forall p :: p in tail ==> p.key != head.key && p.draft.path != head.draft.path
    ensures KeysUnique([head] + tail) && PathsUnique([head] + tail)
  {
  }

  lemma UniqueSnoc(projects: seq<Project>, last: Project)
    requires KeysUnique(projects) && PathsUnique(projects)
    requires forall p :: p in projects ==> p.key != last.key && p.draft.path != last.draft.path
    ensures KeysUnique(projects + [last]) && PathsUnique(projects + [last])
  {
  }

  lemma WithoutKeyMembers(projects: seq<Project>, key: string)
    ensures forall p :: p in WithoutKey(projects, key) <==> p in projects && p.key != key
  {
    FilterMembers((p: Project) => p.key != key, projects);
  }

  lemma {:induction false} WithoutKeyUnique(projects: seq<Project>, key: string)
    requires KeysUnique(projects) && PathsUnique(projects)
    ensures KeysUnique(WithoutKey(projects, key)) && PathsUnique(WithoutKey(projects, key))
    ensures |WithoutKey(projects, key)| <= |projects|
  {
    if projects != [] {
      var tail := projects[1..];
      UniqueTail(projects);
      WithoutKeyUnique(tail, key);
      WithoutKeyMembers(tail, key);
      hide KeysUnique, PathsUnique;
      if projects[0].key != key {
        UniqueCons(projects[0], WithoutKey(tail, key));
      }
    }
  }

  lemma ValidProfileMembers(p: Profile)
    ensures ValidProfile(p) <==>
              ValidConnection(p.connection) && |p.projects| <= 100 && forall q :: q in p.projects ==> ValidKey(q.key)
    ensures Prefixed(p) <==> forall q :: q in p.projects ==> HasPrefix(q.key, p.connection.projectKeyPrefix)
  {
    hide ValidKey, ValidConnection, HasPrefix;
    assert forall i :: 0 <= i < |p.projects| ==> p.projects[i] in p.projects;
  }

  /** Configuring a project keeps keys and paths unique, even when the random part of its key repeats another key. */
  lemma WithProjectGood(p: Profile, draft: Draft, repoFullName: string, suffix: Suffix)
    requires Good(p) && ValidProfile(WithProject(p, draft, repoFullName, suffix))
    ensures Good(WithProject(p, draft, repoFullName, suffix))
  {
    var existing := FindPath(p.projects, draft.path);
    var key := if existing.Some? then existing.value.key else p.connection.projectKeyPrefix + suffix;
    var next := WithProject(p, draft, repoFullName, suffix);
    var kept, last := WithoutKey(p.projects, key), Project(draft.(repoFullName := repoFullName), key);
    FindPathFinds(p.projects, draft.path);
    WithoutKeyUnique(p.projects, key);
    WithoutKeyMembers(p.projects, key);
    ValidProfileMembers(p);
    ValidProfileMembers(next);
    assert HasPrefix(key, p.connection.projectKeyPrefix);
    if existing.Some? {
      SamePath(p.projects, existing.value);
    }
    hide ValidProfile, Prefixed, ValidKey, ValidConnection, HasPrefix, WithoutKey, FindPath;
    UniqueSnoc(kept, last);
    hide KeysUnique, PathsUnique;
  }

  lemma SamePath(projects: seq<Project>, q: Project)
    requires PathsUnique(projects) && q in projects
    ensures forall p :: p in projects && p.draft.path == q.draft.path ==> p == q
  {
  }

  lemma RekeyedGood(p: Profile, projects: seq<Project>, suffixes: seq<Suffix>)
    requires ValidProfile(p) && |suffixes| == |projects| && PathsUnique(projects)
    requires p.projects == Rekeyed(projects, p.connection.projectKeyPrefix, suffixes)
    ensures Prefixed(p) && PathsUnique(p.projects)
    ensures KeysUnique(p.projects) <==> forall i, j :: 0 <= i < j < |suffixes| ==> suffixes[i] != suffixes[j]
  {
    var prefix := p.connection.projectKeyPrefix;
    hide Rekeyed, ValidProfile;
    forall i, j | 0 <= i < j < |suffixes|
      ensures p.projects[i].key == p.projects[j].key <==> suffixes[i] == suffixes[j]
    {
      assert p.projects[i].key[|prefix|..] == suffixes[i] && p.projects[j].key[|prefix|..] == suffixes[j];
    }
  }

  predicate SameProfile(a: State, b: State) {
    && a.initialized == b.initialized && a.profile == b.profile && a.stored == b.stored
    && a.projects == b.projects && a.readiness == b.readiness
  }

  lemma ConsistentFrame(a: State, b: State)
    requires Consistent(a) && SameProfile(a, b)
    ensures Consistent(b)
  {
  }

  lemma BeginPollKeepsProfile(s: State, now: int)
    ensures SameProfile(s, BeginPoll(s, now))
  {
    QuietEnds(s);
    hide Succeed, Fail, ClearPairing, EditError;
  }

  lemma BeginStartKeepsProfile(s: State)
    ensures SameProfile(s, BeginStart(s))
  {
    QuietEnds(s);
    hide Succeed, Fail, ProfileError;
  }

  lemma ProjectOpKeepsProfile(s: State, op: Op, now: int)
    requires op.SaveProject? || op.RemoveProject? || op.RunReadiness?
    ensures SameProfile(s, Begin(s, op, now))
  {
    hide FindKey, EditError, ProfileError, BeginPoll, BeginStart, BeginOnProject, BeginEditing, Succeed, Fail;
  }

  lemma BeginKeepsProfile(s: State, op: Op, now: int)
    ensures SameProfile(s, Begin(s, op, now))
  {
    if op.SaveProject? || op.RemoveProject? || op.RunReadiness? {
      ProjectOpKeepsProfile(s, op, now);
    } else if op.PollPairing? {
      BeginPollKeepsProfile(s, now);
    } else if op.Start? {
      BeginStartKeepsProfile(s);
    } else {
      hide FindKey, EditError, ProfileError, BeginPoll, BeginStart, BeginOnProject, BeginEditing;
    }
  }

  lemma PublishConsistent(s: State, p: Profile)
    requires s.initialized && Good(p) && (forall k :: k in s.readiness ==> FindKey(p.projects, k).Some?)
    ensures Consistent(Publish(s, p))
  {
    hide Good, FindKey;
  }

  lemma ClaimedGood(next: Profile, before: Option<Profile>, suffixes: seq<Suffix>)
    requires before.Some? ==> Good(before.value)
    requires ValidProfile(next) && |suffixes| == |ProjectsOf(before)|
    requires next.projects == Rekeyed(ProjectsOf(before), next.connection.projectKeyPrefix, suffixes)
    requires forall i, j :: 0 <= i < j < |suffixes| ==> suffixes[i] != suffixes[j]
    ensures Good(next)
  {
    assert PathsUnique(ProjectsOf(before));
    RekeyedGood(next, ProjectsOf(before), suffixes);
  }

  lemma PublishedFrame(s: State, next: Profile)
    ensures SameProfile(Publish(s.(readiness := map[]), next),
                        Succeed(Publish(ClearPairing(s.(readiness := map[])), next)))
  {
  }

  lemma PollConsistent(s: State, out: Outcome)
    requires Consistent(s) && s.initialized && s.pairing.Some?
    requires out.Claimed? ==> forall i, j :: 0 <= i < j < |out.suffixes| ==> out.suffixes[i] != out.suffixes[j]
    ensures Consistent(EndPoll(s, out))
  {
    var after := EndPoll(s, out);
    QuietEnds(s);
    hide ValidProfile, Good, FindKey, Fail, Succeed, ClearPairing, Publish;
    if out.Claimed? && |out.suffixes| == |ProjectsOf(s.profile)| && ValidProfile(ClaimedProfile(s, out)) && out.saved {
      var next := ClaimedProfile(s, out);
      ClaimedGood(next, s.profile, out.suffixes);
      hide ClaimedProfile, Consistent, SameProfile;
      PublishConsistent(s.(readiness := map[]), next);
      PublishedFrame(s, next);
      ConsistentFrame(Publish(s.(readiness := map[]), next), after);
    } else {
      hide ClaimedProfile, Consistent;
      ConsistentFrame(s, after);
    }
  }

  lemma SaveConsistent(s: State, draft: Draft, out: Outcome)
    requires Consistent(s) && s.initialized && s.profile.Some?
    ensures Consistent(EndSave(s, draft, out))
  {
    hide FindKey;
    var after := EndSave(s, draft, out);
    if SameProfile(s, after) {
      ConsistentFrame(s, after);
    } else {
      WithProjectGood(s.profile.value, draft, out.repoFullName, out.suffix);
      hide WithProject, ValidProfile, Good;
    }
  }

  lemma FindKeyWithout(projects: seq<Project>, key: string, k: string)
    requires FindKey(projects, k).Some? && k != key
    ensures FindKey(WithoutKey(projects, key), k).Some?
  {
    FindKeyFinds(projects, k);
    FindKeyFinds(WithoutKey(projects, key), k);
    WithoutKeyMembers(projects, key);
  }

  lemma WithoutKeyGood(p: Profile, key: string)
    requires Good(p)
    ensures Good(p.(projects := WithoutKey(p.projects, key)))
  {
    var next := p.(projects := WithoutKey(p.projects, key));
    WithoutKeyUnique(p.projects, key);
    WithoutKeyMembers(p.projects, key);
    ValidProfileMembers(p);
    ValidProfileMembers(next);
    hide ValidProfile, Prefixed, KeysUnique, PathsUnique, ValidKey, ValidConnection, HasPrefix, WithoutKey;
  }

  lemma RemoveConsistent(s: State, key: string, out: Outcome)
    requires Consistent(s) && s.initialized && s.profile.Some?
    ensures Consistent(EndRemove(s, key, out))
  {
    var after := EndRemove(s, key, out);
    QuietEnds(s);
    if out.Written? && out.saved {
      WithoutKeyGood(s.profile.value, key);
      forall k | k in s.readiness && k != key
        ensures FindKey(WithoutKey(s.profile.value.projects, key), k).Some?
      {
        FindKeyWithout(s.profile.value.projects, key, k);
      }
      hide WithoutKey, Good, FindKey;
    } else {
      hide Fail, Good, FindKey;
      ConsistentFrame(s, after);
    }
  }

  /** An operation on one project runs only while that project is configured. */
  predicate ProjectKnown(s: State) {
    s.current.Some? && s.current.value.RunReadiness? ==>
      s.profile.Some? && FindKey(s.profile.value.projects, s.current.value.key).Some?
  }

  lemma ReadinessConsistent(s: State, key: string, out: Outcome)
    requires Consistent(s) && s.current == Some(RunReadiness(key)) && ProjectKnown(s)
    ensures Consistent(End(s, out))
  {
    hide FindKey, Good, Prefixed;
  }

  lemma InitializeConsistent(s: State, out: Outcome)
    requires Consistent(s) && s.current == Some(Initialize) && !s.initialized
    ensures Consistent(End(s, out))
  {
    hide Good;
    assert s.readiness == map[];
    hide FindKey;
  }

  lemma FailedKeepsProfile(s: State, out: Outcome)
    requires s.current.None? || out.Failed? || out.PairingUnavailable?
    ensures SameProfile(s, End(s, out))
  {
  }

  lemma StartKeepsProfile(s: State)
    requires s.profile.Some?
    ensures SameProfile(s, EndStart(s))
  {
    hide Prefixed;
  }

  lemma StopKeepsProfile(s: State)
    ensures SameProfile(s, EndStop(s))
  {
  }

  lemma OtherKeepsProfile(s: State, out: Outcome)
    requires s.current.Some? && !out.Failed? && !out.PairingUnavailable?
    requires !s.current.value.Initialize? && !s.current.value.RunReadiness? && !s.current.value.PollPairing?
    requires !s.current.value.SaveProject? && !s.current.value.RemoveProject?
    ensures SameProfile(s, End(s, out))
  {
    if s.current.value.Start? {
      if s.profile.Some? {
        StartKeepsProfile(s);
      }
    } else if s.current.value.Stop? {
      StopKeepsProfile(s);
    } else if s.current.value.BeginPairing? && out.Begun? {
      BegunKeepsProfile(s, out.started, out.now);
    } else {
      SucceedKeepsProfile(s);
    }
    hide EndPoll, EndSave, EndRemove, EndInitialize, EndReadiness, EndStart, EndStop, EndBegun, Succeed, Fail;
    hide SameProfile;
    assert SameProfile(s, s) by { SucceedKeepsProfile(s); }
  }

  lemma SucceedKeepsProfile(s: State)
    ensures SameProfile(s, s) && SameProfile(s, Succeed(s))
  {
  }

  lemma BegunKeepsProfile(s: State, started: Pairing, now: int)
    ensures SameProfile(s, EndBegun(s, started, now))
  {
  }

  lemma EndConsistent(w: World, out: Outcome)
    requires Engine(w) && Consistent(w.state) && ProjectKnown(w.state) && Enabled(w, EndOp(out))
    ensures Consistent(End(w.state, out))
  {
    var s := w.state;
    QuietEnds(s);
    hide FindKey, Good, EndPoll, EndSave, EndRemove, Prefixed, Fail, ClearPairing;
    if s.current.None? || out.Failed? || out.PairingUnavailable? {
      FailedKeepsProfile(s, out);
      ConsistentFrame(s, End(s, out));
    } else {
      match s.current.value {
        case PollPairing => PollConsistent(s, out);
        case SaveProject(draft) => SaveConsistent(s, draft, out);
        case RemoveProject(key) => RemoveConsistent(s, key, out);
        case RunReadiness(key) => ReadinessConsistent(s, key, out);
        case Initialize => InitializeConsistent(s, out);
        case _ =>
          OtherKeepsProfile(s, out);
          ConsistentFrame(s, End(s, out));
      }
    }
  }

  predicate Inv(w: World) {
    Engine(w) && Consistent(w.state) && ProjectKnown(w.state)
  }

  lemma BeginKnown(s: State, op: Op, now: int)
    requires ProjectKnown(s)
    ensures ProjectKnown(Begin(s, op, now))
  {
    hide FindKey, EditError, BeginOnProject, BeginEditing;
  }

  lemma EndKnown(w: World, out: Outcome)
    requires Engine(w) && ProjectKnown(w.state)
    ensures ProjectKnown(End(w.state, out))
  {
    if w.state.current.Some? && !IsStarting(w.state) && !w.state.current.value.Stop?
       && !w.state.current.value.BeginPairing? {
      EndSettles(w.state, out);
      hide End, FindKey;
    }
  }

  lemma StepKeeps(w: World, step: Step)
    requires Inv(w) && Enabled(w, step)
    ensures Inv(Take(w, step))
  {
    EngineStep(w, step);
    hide Engine, Consistent, ProjectKnown, End, Begin, OnStatus, SameProfile;
    match step
    case BeginOp(op, now) =>
      BeginKeepsProfile(w.state, op, now);
      BeginKnown(w.state, op, now);
      ConsistentFrame(w.state, Begin(w.state, op, now));
    case EndOp(out) =>
      EndConsistent(w, out);
      EndKnown(w, out);
    case Report(generation, status, busy, message) =>
      ReportFrame(w.state, generation, status, busy, message);
  }

  lemma ReportFrame(s: State, generation: nat, status: Status, busy: bool, message: Option<Message>)
    requires Consistent(s) && ProjectKnown(s)
    ensures Consistent(OnStatus(s, generation, status, busy, message))
    ensures ProjectKnown(OnStatus(s, generation, status, busy, message))
  {
    var after := OnStatus(s, generation, status, busy, message);
    hide FindKey, Consistent;
    assert SameProfile(s, after) && after.current == s.current;
    ConsistentFrame(s, after);
  }

  /** The invariant holds at every point of a run. */
  lemma {:induction false} RunKeeps(w: World, steps: seq<Step>)
    requires Inv(w) && IsRun(w, steps)
    ensures forall n :: 0 <= n <= |steps| ==> Inv(Run(w, steps[..n]))
    decreases steps
  {
    hide Inv, Take, Enabled;
    if steps != [] {
      StepKeeps(w, steps[0]);
      RunKeeps(Take(w, steps[0]), steps[1..]);
    }
    forall n | 0 <= n <= |steps|
      ensures Inv(Run(w, steps[..n]))
    {
      assert n > 0 ==> steps[..n][1..] == steps[1..][..n - 1];
    }
  }

  // ---- What holds on every run

  function InitialWorld(stored: Option<Profile>, clock: int): World {
    World(Initial(stored), {}, clock, clock)
  }

  lemma InitialInv(stored: Option<Profile>, clock: int)
    requires stored.Some? ==> Good(stored.value)
    ensures Inv(InitialWorld(stored, clock))
  {
  }

  /** From any good saved profile, under every interleaving of operations and reports. */
  lemma ManagerSafety(stored: Option<Profile>, clock: int, steps: seq<Step>)
    requires stored.Some? ==> Good(stored.value)
    requires IsRun(InitialWorld(stored, clock), steps)
    ensures var s := Run(InitialWorld(stored, clock), steps).state;
            && |s.live| <= 1 && (s.running <==> s.live != {})
            && (s.runtime.Some? ==> s.live == {s.runtime.value} && s.pairing.None?)
            && (s.runtime.None? && !IsStarting(s) ==> (s.status == Stopped || s.status == Error) && !s.busy)
            && (s.initialized ==> s.profile == s.stored && s.projects == ProjectsOf(s.stored))
            && (s.profile.Some? ==> Good(s.profile.value))
            && (forall k :: k in s.readiness ==> FindKey(s.projects, k).Some?)
  {
    InitialInv(stored, clock);
    RunKeeps(InitialWorld(stored, clock), steps);
    assert steps[..|steps|] == steps;
    hide Run, IsRun, Good, FindKey;
  }

  /** Once there is no runtime and none is being started, a late report of any earlier runtime changes nothing. */
  lemma DeadReportsIgnored(w: World, generation: nat, status: Status, busy: bool, message: Option<Message>)
    requires Inv(w) && w.state.runtime.None? && !IsStarting(w.state) && generation in w.started
    ensures Take(w, Report(generation, status, busy, message)) == w
  {
    hide Consistent, ProjectKnown;
  }

  /** While a runtime lives, only its own reports are taken, and they change nothing but status, busy and error. */
  lemma ReportsFromLive(w: World, generation: nat, status: Status, busy: bool, message: Option<Message>)
    requires Inv(w) && w.state.runtime.Some?
    ensures var s := Take(w, Report(generation, status, busy, message)).state;
            if w.state.live == {generation} then s == w.state.(status := status, busy := busy, error := message)
            else s == w.state
  {
    hide Consistent, ProjectKnown;
    assert generation in w.state.live <==> generation == w.state.runtimeGeneration;
  }

  /** No run reaches the refusal of a project that belongs to another agent. */
  lemma ForeignNeverRefused(w: World, out: Outcome)
    requires Inv(w) && w.state.current.Some?
    requires (IsStarting(w.state) && out.Done?) || (w.state.current.value.RunReadiness? && out.Checked?)
    ensures End(w.state, out).error.None? && (IsStarting(w.state) ==> End(w.state, out).running)
  {
    hide FindKey, ValidProfile, KeysUnique, PathsUnique;
  }

  /** A stored profile is not checked for its prefix: starting it works exactly when its keys carry that prefix. */
  lemma StartOfStored(p: Profile)
    requires p.projects != []
    ensures var steps := [BeginOp(Initialize, 0), EndOp(Loaded), BeginOp(Start, 0), EndOp(Done)];
            && IsRun(InitialWorld(Some(p), 0), steps)
            && (Run(InitialWorld(Some(p), 0), steps).state.running <==> Prefixed(p))
  {
    hide Prefixed;
    var w0 := InitialWorld(Some(p), 0);
    var w1 := Take(w0, BeginOp(Initialize, 0));
    var w2 := Take(w1, EndOp(Loaded));
    var w3 := Take(w2, BeginOp(Start, 0));
    var steps := [BeginOp(Initialize, 0), EndOp(Loaded), BeginOp(Start, 0), EndOp(Done)];
    FourSteps(w0, BeginOp(Initialize, 0), EndOp(Loaded), BeginOp(Start, 0), EndOp(Done));
    assert w3.state.current == Some(Start) && w3.state.profile == Some(p) && !w3.state.running;
  }

  lemma RunFirst(w: World, a: Step, rest: seq<Step>)
    ensures Run(w, [a] + rest) == Run(Take(w, a), rest)
    ensures IsRun(w, [a] + rest) <==> Enabled(w, a) && IsRun(Take(w, a), rest)
  {
    assert ([a] + rest)[1..] == rest;
  }

  lemma FourSteps(w: World, a: Step, b: Step, c: Step, d: Step)
    ensures Run(w, [a, b, c, d]) == Take(Take(Take(Take(w, a), b), c), d)
    ensures IsRun(w, [a, b, c, d]) <==>
            && Enabled(w, a) && Enabled(Take(w, a), b) && Enabled(Take(Take(w, a), b), c)
            && Enabled(Take(Take(Take(w, a), b), c), d)
  {
    var w1 := Take(w, a);
    var w2 := Take(w1, b);
    var w3 := Take(w2, c);
    RunFirst(w, a, [b, c, d]);
    RunFirst(w1, b, [c, d]);
    RunFirst(w2, c, [d]);
    RunFirst(w3, d, []);
    assert [a, b, c, d] == [a] + [b, c, d] && [b, c, d] == [b] + [c, d] && [c, d] == [c] + [d] && [d] == [d] + [];
  }

  /** Pairing again keeps every project and changes its key only. */
  lemma RepairingKeepsProjects(s: State, out: Outcome)
    requires s.pairing.Some? && out.Claimed? && |out.suffixes| == |ProjectsOf(s.profile)| && out.saved
    requires EndPoll(s, out).error.None?
    ensures var after := EndPoll(s, out);
            && after.profile.Some? && after.stored == after.profile && after.readiness == map[] && after.pairing.None?
            && |after.profile.value.projects| == |ProjectsOf(s.profile)|
            && forall i :: 0 <= i < |ProjectsOf(s.profile)| ==>
                 && after.profile.value.projects[i].draft == ProjectsOf(s.profile)[i].draft
                 && HasPrefix(after.profile.value.projects[i].key, out.projectKeyPrefix)
  {
    hide ValidProfile, ProjectsOf;
  }

  /** Configuring a project keeps exactly the others whose key differs from its own. */
  lemma ConfiguringKeepsOthers(p: Profile, draft: Draft, repoFullName: string, suffix: Suffix)
    requires Good(p)
    ensures var next := WithProject(p, draft, repoFullName, suffix).projects;
            var last := next[|next| - 1];
            && last.draft == draft.(repoFullName := repoFullName)
            && (forall q :: q in next[..|next| - 1] <==> q in p.projects && q.key != last.key)
            && (forall q :: q in p.projects && q.draft.path == draft.path ==> q.key == last.key)
  {
    var next := WithProject(p, draft, repoFullName, suffix).projects;
    var existing := FindPath(p.projects, draft.path);
    var key := next[|next| - 1].key;
    WithoutKeyMembers(p.projects, key);
    FindPathFinds(p.projects, draft.path);
    assert next[..|next| - 1] == WithoutKey(p.projects, key);
    if existing.Some? {
      SamePath(p.projects, existing.value);
    }
    hide WithoutKey, FindPath;
  }

  // ---- The pace of polling

  predicate Spaced(times: seq<int>, gap: int) {
    forall i :: 0 <= i < |times| - 1 ==> times[i] + gap <= times[i + 1]
  }

  predicate Within(times: seq<int>, from: int, to: int) {
    forall i :: 0 <= i < |times| ==> from <= times[i] < to
  }

  /** The claims made for the pending pairing keep the server's interval and end before its code expires. */
  predicate Paced(w: World) {
    var s := w.state;
    s.pairing.Some? ==>
      && s.pairing.value.intervalSeconds > 0 && w.issued <= w.clock
      && Spaced(s.claims, s.pairing.value.intervalSeconds * 1000)
      && Within(s.claims, w.issued, s.pairing.value.expiresAt)
      && (s.claims != [] ==> s.nextPairingPoll == s.claims[|s.claims| - 1] + s.pairing.value.intervalSeconds * 1000)
  }

  predicate SamePairing(a: State, b: State) {
    b.pairing.Some? ==> a.pairing == b.pairing && a.claims == b.claims && a.nextPairingPoll == b.nextPairingPoll
  }

  lemma PacedFrame(w: World, s: State, clock: int)
    requires Paced(w) && SamePairing(w.state, s) && w.clock <= clock
    ensures Paced(w.(state := s, clock := clock))
  {
  }

  lemma ProjectOpKeepsPairing(s: State, op: Op, now: int)
    requires op.SaveProject? || op.RemoveProject? || op.RunReadiness?
    ensures SamePairing(s, Begin(s, op, now))
  {
    hide FindKey, EditError, ProfileError, BeginStart, BeginPoll, BeginOnProject, BeginEditing, Succeed, Fail;
  }

  lemma BeginKeepsPairing(s: State, op: Op, now: int)
    requires !op.PollPairing?
    ensures SamePairing(s, Begin(s, op, now))
  {
    if op.SaveProject? || op.RemoveProject? || op.RunReadiness? {
      ProjectOpKeepsPairing(s, op, now);
    } else {
      hide FindKey, EditError, BeginPoll, BeginOnProject, BeginEditing;
    }
  }

  lemma ClaimNext(times: seq<int>, gap: int, from: int, to: int, now: int)
    requires Spaced(times, gap) && Within(times, from, to) && from <= now < to
    requires times != [] ==> times[|times| - 1] + gap <= now
    ensures Spaced(times + [now], gap) && Within(times + [now], from, to)
  {
  }

  lemma PollCases(s: State, now: int)
    ensures SamePairing(s, BeginPoll(s, now))
         || (s.pairing.Some? && now < s.pairing.value.expiresAt && s.nextPairingPoll <= now
             && BeginPoll(s, now) == s.(current := Some(PollPairing), claims := s.claims + [now],
                                        nextPairingPoll := now + s.pairing.value.intervalSeconds * 1000))
  {
    hide EditError;
  }

  lemma ClaimPaced(w: World, s: State, now: int)
    requires Paced(w) && w.clock <= now && w.state.pairing.Some?
    requires now < w.state.pairing.value.expiresAt && w.state.nextPairingPoll <= now
    requires s.pairing == w.state.pairing && s.claims == w.state.claims + [now]
    requires s.nextPairingPoll == now + s.pairing.value.intervalSeconds * 1000
    ensures Paced(w.(state := s, clock := now))
  {
    var p := s.pairing.value;
    ClaimNext(w.state.claims, p.intervalSeconds * 1000, w.issued, p.expiresAt, now);
    hide Spaced, Within;
  }

  lemma PollPaced(w: World, now: int)
    requires Paced(w) && w.clock <= now
    ensures Paced(w.(state := BeginPoll(w.state, now), clock := now))
  {
    PollCases(w.state, now);
    var s := BeginPoll(w.state, now);
    hide BeginPoll, Paced;
    if SamePairing(w.state, s) {
      PacedFrame(w, s, now);
    } else {
      ClaimPaced(w, s, now);
    }
  }

  lemma EndPollKeepsPairing(s: State, out: Outcome)
    requires s.pairing.Some?
    ensures SamePairing(s, EndPoll(s, out))
  {
    hide ValidProfile, Rekeyed;
  }

  lemma EndSaveKeepsPairing(s: State, draft: Draft, out: Outcome)
    requires s.profile.Some?
    ensures SamePairing(s, EndSave(s, draft, out))
  {
    QuietEnds(s);
    hide ValidProfile, WithProject, Fail;
  }

  lemma EndRemoveKeepsPairing(s: State, key: string, out: Outcome)
    requires s.profile.Some?
    ensures SamePairing(s, EndRemove(s, key, out))
  {
    QuietEnds(s);
    hide WithoutKey, Fail;
  }

  lemma OtherKeepsPairing(s: State, out: Outcome)
    requires s.current.Some? && !s.current.value.PollPairing? && !s.current.value.SaveProject?
             && !s.current.value.RemoveProject?
    requires !(s.current.value.BeginPairing? && out.Begun? && out.now < out.started.expiresAt)
    ensures SamePairing(s, End(s, out))
  {
    hide EndPoll, EndSave, EndRemove, Prefixed;
  }

  lemma EndKeepsPairing(s: State, out: Outcome)
    requires !(s.current == Some(BeginPairing) && out.Begun? && out.now < out.started.expiresAt)
    ensures SamePairing(s, End(s, out))
  {
    QuietEnds(s);
    hide EndPoll, EndSave, EndRemove, Fail, Succeed, ClearPairing;
    if s.current.Some? {
      match s.current.value {
        case PollPairing =>
          if s.pairing.Some? {
            EndPollKeepsPairing(s, out);
          }
        case SaveProject(draft) =>
          if s.profile.Some? {
            EndSaveKeepsPairing(s, draft, out);
          }
        case RemoveProject(key) =>
          if s.profile.Some? {
            EndRemoveKeepsPairing(s, key, out);
          }
        case _ => OtherKeepsPairing(s, out);
      }
    }
  }

  lemma BeginPaced(w: World, op: Op, now: int)
    requires Paced(w) && w.clock <= now
    ensures Paced(w.(state := Begin(w.state, op, now), clock := now))
  {
    if op.PollPairing? {
      PollPaced(w, now);
      if w.state.current.Some? {
        PacedFrame(w, w.state, now);
      }
    } else {
      BeginKeepsPairing(w.state, op, now);
      hide Begin, Paced;
      PacedFrame(w, Begin(w.state, op, now), now);
    }
  }

  lemma EndPaced(w: World, out: Outcome)
    requires Paced(w) && Enabled(w, EndOp(out))
    ensures Paced(Take(w, EndOp(out)))
  {
    if w.state.current == Some(BeginPairing) && out.Begun? && out.now < out.started.expiresAt {
      assert End(w.state, out) == EndBegun(w.state, out.started, out.now);
      hide End;
    } else {
      EndKeepsPairing(w.state, out);
      hide End, Paced, SamePairing;
      PacedFrame(w, End(w.state, out), if out.Begun? then out.now else w.clock);
    }
  }

  lemma StepPaced(w: World, step: Step)
    requires Paced(w) && Enabled(w, step)
    ensures Paced(Take(w, step))
  {
    match step
    case BeginOp(op, now) =>
      BeginPaced(w, op, now);
      hide Begin;
    case EndOp(out) => EndPaced(w, out);
    case Report(generation, status, busy, message) =>
      PacedFrame(w, OnStatus(w.state, generation, status, busy, message), w.clock);
  }

  lemma {:induction false} RunPaced(w: World, steps: seq<Step>)
    requires Paced(w) && IsRun(w, steps)
    ensures forall n :: 0 <= n <= |steps| ==> Paced(Run(w, steps[..n]))
    decreases steps
  {
    hide Paced, Take, Enabled;
    if steps != [] {
      StepPaced(w, steps[0]);
      RunPaced(Take(w, steps[0]), steps[1..]);
    }
    forall n | 0 <= n <= |steps|
      ensures Paced(Run(w, steps[..n]))
    {
      assert n > 0 ==> steps[..n][1..] == steps[1..][..n - 1];
    }
  }

  lemma {:induction false} SpacedSpan(times: seq<int>, gap: int)
    requires Spaced(times, gap) && times != []
    ensures times[0] + (|times| - 1) * gap <= times[|times| - 1]
  {
    if |times| > 1 {
      var init := times[..|times| - 1];
      SpacedSpan(init, gap);
      assert times[|times| - 2] + gap <= times[|times| - 2 + 1];
      assert (|times| - 1) * gap == (|times| - 2) * gap + gap;
    }
  }

  /** On every run the claims for one code keep the polling interval, end before it expires, and so fit its life. */
  lemma ClaimsBounded(stored: Option<Profile>, clock: int, steps: seq<Step>)
    requires IsRun(InitialWorld(stored, clock), steps)
    ensures var w := Run(InitialWorld(stored, clock), steps);
            w.state.pairing.Some? ==> ClaimsFit(w)
  {
    RunPaced(InitialWorld(stored, clock), steps);
    assert steps[..|steps|] == steps;
    var w := Run(InitialWorld(stored, clock), steps);
    if w.state.pairing.Some? && w.state.claims != [] {
      SpacedSpan(w.state.claims, w.state.pairing.value.intervalSeconds * 1000);
    }
  }

  predicate ClaimsFit(w: World)
    requires w.state.pairing.Some?
  {
    var pairing, claims := w.state.pairing.value, w.state.claims;
    && pairing.intervalSeconds > 0
    && Spaced(claims, pairing.intervalSeconds * 1000) && Within(claims, w.issued, pairing.expiresAt)
    && (claims != [] ==> (|claims| - 1) * (pairing.intervalSeconds * 1000) < pairing.expiresAt - w.issued)
  }
}
