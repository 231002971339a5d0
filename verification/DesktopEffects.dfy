/**
 * What each operation of the desktop agent manager does, field by field
 * (packages/local-agent/src/desktop/desktop-agent-manager.ts, lines 82 to 307).
 */
module DesktopEffects {
  import opened Common
  import opened DesktopManager

  /** Before it is initialised the manager has a saved profile at most. */
  lemma StartsIdle(stored: Option<Profile>)
    ensures var s := Initial(stored);
            && !s.initialized && s.profile == None && s.stored == stored && s.projects == [] && s.readiness == map[]
            && s.pairing == None && s.nextPairingPoll == 0 && s.claims == [] && s.current == None && s.error == None
            && s.runtime == None && s.runtimeGeneration == 0 && s.live == {} && !s.running && s.status == Stopped
            && !s.busy
  {
  }

  // ---- Before the awaited calls

  predicate HasKey(projects: seq<Project>, key: string) {
    exists i :: 0 <= i < |projects| && projects[i].key == key
  }

  predicate Editable(s: State) {
    s.runtime.None? && s.status in {Stopped, Error}
  }

  /** The first reason to refuse an operation that is not about pairing. */
  function Refusal(s: State, op: Op): Option<Message> {
    if op.Start? && s.runtime.Some? then Some(AlreadyRunning)
    else if op.Start? && s.pairing.Some? then Some(PairingUnfinished)
    else if op in {Initialize, CancelPairing, CheckTools, Stop} then None
    else if !s.initialized then Some(NotInitialized)
    else if !op.Start? && !op.RunReadiness? && !Editable(s) then Some(NotEditable)
    else if !op.BeginPairing? && !op.LoginCodex? && s.profile.None? then Some(NotPaired)
    else if op.RemoveProject? && !HasKey(s.profile.value.projects, op.key) then Some(UnknownProject)
    else if op.RunReadiness? && !HasKey(s.profile.value.projects, op.key) then Some(UnknownProject)
    else if op.Start? && s.profile.value.projects == [] then Some(NoProjects)
    else None
  }

  /** Nothing is awaited. */
  predicate Immediate(s: State, op: Op) {
    op.CancelPairing? || (op.Initialize? && s.initialized) || (op.Stop? && s.runtime.None?)
  }

  /** A refused operation changes the error alone; any other waits, unless it has nothing to wait for. */
  lemma BeginsExactly(s: State, op: Op, now: int)
    requires s.current.None? && !op.PollPairing? && !op.Start?
    ensures var t := Begin(s, op, now);
            && (Refusal(s, op).Some? ==> t == s.(error := Refusal(s, op)))
            && (op.CancelPairing? ==> t == s.(pairing := None, error := None))
            && (op.Initialize? && s.initialized ==> t == s.(error := None))
            && (op.Stop? && s.runtime.None? ==>
                  t == s.(error := None, runtimeGeneration := s.runtimeGeneration + 1, running := false,
                          status := Stopped, busy := false))
            && (Refusal(s, op).None? && !Immediate(s, op) ==> t == s.(current := Some(op)))
  {
    if s.profile.Some? && (op.RemoveProject? || op.RunReadiness?) {
      FindKeyFinds(s.profile.value.projects, op.key);
      HasKeyMember(s.profile.value.projects, op.key);
    }
    hide FindKey, HasKey, BeginPoll, BeginStart;
  }

  /** A start that is not refused shows that it starts, under a new generation. */
  lemma StartsExactly(s: State, now: int)
    requires s.current.None?
    ensures Begin(s, Start, now) ==
            if Refusal(s, Start).Some? then s.(error := Refusal(s, Start))
            else s.(current := Some(Start), status := Starting, error := None,
                    runtimeGeneration := s.runtimeGeneration + 1)
  {
    hide BeginPoll, BeginEditing, BeginOnProject, HasKey;
  }

  lemma HasKeyMember(projects: seq<Project>, key: string)
    ensures HasKey(projects, key) <==> exists p :: p in projects && p.key == key
  {
    if p :| p in projects && p.key == key {
      var i :| 0 <= i < |projects| && projects[i] == p;
    }
    if i :| 0 <= i < |projects| && projects[i].key == key {
      assert projects[i] in projects;
    }
  }

  /** Polling claims the pairing exactly if it is due: pending, editable, not expired, and not before its time. */
  lemma PollsExactly(s: State, now: int)
    requires s.current.None?
    ensures var t := Begin(s, PollPairing, now);
            var able := s.pairing.Some? && s.initialized && Editable(s);
            var live := able && now < s.pairing.value.expiresAt;
            && (t.current == Some(PollPairing) <==> live && s.nextPairingPoll <= now)
            && (t.current.Some? ==>
                  t == s.(current := Some(PollPairing), claims := s.claims + [now],
                          nextPairingPoll := now + 1000 * s.pairing.value.intervalSeconds))
            && (s.pairing.None? || (live && now < s.nextPairingPoll) ==> t == s.(error := None))
            && (able && !live ==> t == s.(pairing := None, error := Some(CodeExpired)))
            && (s.pairing.Some? && !able ==>
                  t == s.(error := Some(if s.initialized then NotEditable else NotInitialized)))
  {
  }

  // ---- After the awaited calls

  /** The new profile is in memory, shown and in the file. */
  predicate Saved(t: State, p: Profile) {
    t.profile == Some(p) && t.stored == Some(p) && t.projects == p.projects && t.current == None && t.error == None
  }

  predicate SameProfileFields(s: State, t: State) {
    && t.initialized == s.initialized && t.profile == s.profile && t.stored == s.stored
    && t.projects == s.projects && t.readiness == s.readiness
  }

  predicate SameRuntimeFields(s: State, t: State) {
    && t.runtime == s.runtime && t.runtimeGeneration == s.runtimeGeneration && t.live == s.live
    && t.running == s.running && t.status == s.status && t.busy == s.busy
  }

  predicate SamePairingFields(s: State, t: State) {
    t.pairing == s.pairing && t.nextPairingPoll == s.nextPairingPoll && t.claims == s.claims
  }

  /** The operation has failed, and but for the error nothing has changed. */
  predicate OnlyFailed(s: State, t: State, message: Message) {
    && t.current == None && t.error == Some(message)
    && SameProfileFields(s, t) && SameRuntimeFields(s, t) && SamePairingFields(s, t)
  }

  lemma {:induction false} WithoutOne(projects: seq<Project>, key: string, i: nat)
    requires i < |projects| && projects[i].key == key && KeysUnique(projects)
    ensures WithoutKey(projects, key) == projects[..i] + projects[i + 1..]
  {
    var p := (q: Project) => q.key != key;
    assert projects == projects[..i] + [projects[i]] + projects[i + 1..];
    FilterConcat(p, projects[..i] + [projects[i]], projects[i + 1..]);
    FilterConcat(p, projects[..i], [projects[i]]);
    FilterAll(p, projects[..i]);
    FilterAll(p, projects[i + 1..]);
    FilterShort(p, [projects[i]]);
    assert projects[..i] + [] == projects[..i];
  }

  lemma WithoutNone(projects: seq<Project>, key: string)
    requires !HasKey(projects, key)
    ensures WithoutKey(projects, key) == projects
  {
    FilterAll((q: Project) => q.key != key, projects);
  }

  /** Removing a project saves and shows the others, in order, under the same connection, and forgets its readiness. */
  lemma RemovalRemoves(s: State, key: string, i: nat, saved: bool)
    requires s.current == Some(RemoveProject(key)) && s.profile.Some? && Good(s.profile.value)
    requires i < |s.profile.value.projects| && s.profile.value.projects[i].key == key
    ensures var t, p := End(s, Written(saved)), s.profile.value;
            && (saved ==>
                  && Saved(t, Profile(p.connection, p.projects[..i] + p.projects[i + 1..]))
                  && t.readiness == s.readiness - {key} && t.initialized == s.initialized
                  && SameRuntimeFields(s, t) && SamePairingFields(s, t))
            && (!saved ==> OnlyFailed(s, t, NotSaved))
  {
    WithoutOne(s.profile.value.projects, key, i);
  }

  /** What configuring a project at a path gives; a project at that path gives way but keeps its key. */
  ghost predicate Configures(p: Profile, draft: Draft, repoFullName: string, suffix: Suffix, next: Profile) {
    var drafted := draft.(repoFullName := repoFullName);
    && next.connection == p.connection
    && (forall i :: 0 <= i < |p.projects| && p.projects[i].draft.path == draft.path ==>
          next.projects == p.projects[..i] + p.projects[i + 1..] + [Project(drafted, p.projects[i].key)])
    && ((forall i :: 0 <= i < |p.projects| ==> p.projects[i].draft.path != draft.path) ==>
          var key := p.connection.projectKeyPrefix + suffix;
          && (!HasKey(p.projects, key) ==> next.projects == p.projects + [Project(drafted, key)])
          && (forall i :: 0 <= i < |p.projects| && p.projects[i].key == key ==>
                next.projects == p.projects[..i] + p.projects[i + 1..] + [Project(drafted, key)]))
  }

  lemma ReplacesAt(p: Profile, draft: Draft, repoFullName: string, suffix: Suffix, i: nat)
    requires KeysUnique(p.projects) && PathsUnique(p.projects)
    requires i < |p.projects| && p.projects[i].draft.path == draft.path
    ensures WithProject(p, draft, repoFullName, suffix).projects ==
            p.projects[..i] + p.projects[i + 1..] + [Project(draft.(repoFullName := repoFullName), p.projects[i].key)]
  {
    FindPathFinds(p.projects, draft.path);
    var existing := FindPath(p.projects, draft.path);
    assert p.projects[i] in p.projects;
    var j :| 0 <= j < |p.projects| && p.projects[j] == existing.value;
    assert i == j;
    WithoutOne(p.projects, p.projects[i].key, i);
    hide WithoutKey, FindPath, KeysUnique, PathsUnique;
  }

  lemma AddsAnew(p: Profile, draft: Draft, repoFullName: string, suffix: Suffix)
    requires KeysUnique(p.projects) && forall i :: 0 <= i < |p.projects| ==> p.projects[i].draft.path != draft.path
    ensures var projects, key := p.projects, p.connection.projectKeyPrefix + suffix;
            var next := WithProject(p, draft, repoFullName, suffix).projects;
            && (!HasKey(projects, key) ==> next == projects + [Project(draft.(repoFullName := repoFullName), key)])
            && (forall i :: 0 <= i < |projects| && projects[i].key == key ==>
                  next == projects[..i] + projects[i + 1..] + [Project(draft.(repoFullName := repoFullName), key)])
  {
    var projects, key := p.projects, p.connection.projectKeyPrefix + suffix;
    FindPathFinds(projects, draft.path);
    if !HasKey(projects, key) {
      WithoutNone(projects, key);
    } else {
      var i :| 0 <= i < |projects| && projects[i].key == key;
      WithoutOne(projects, key, i);
      assert forall j :: 0 <= j < |projects| && projects[j].key == key ==> j == i;
    }
    hide WithoutKey, FindPath, KeysUnique;
  }

  lemma WithProjectConfigures(p: Profile, draft: Draft, repoFullName: string, suffix: Suffix)
    requires Good(p)
    ensures Configures(p, draft, repoFullName, suffix, WithProject(p, draft, repoFullName, suffix))
  {
    assert KeysUnique(p.projects) && PathsUnique(p.projects);
    assert WithProject(p, draft, repoFullName, suffix).connection == p.connection;
    hide Good, WithProject, HasKey, KeysUnique, PathsUnique;
    if i :| 0 <= i < |p.projects| && p.projects[i].draft.path == draft.path {
      forall i | 0 <= i < |p.projects| && p.projects[i].draft.path == draft.path
        ensures WithProject(p, draft, repoFullName, suffix).projects ==
                p.projects[..i] + p.projects[i + 1..]
                + [Project(draft.(repoFullName := repoFullName), p.projects[i].key)]
      {
        ReplacesAt(p, draft, repoFullName, suffix, i);
      }
    } else {
      AddsAnew(p, draft, repoFullName, suffix);
    }
  }

  lemma FailsOnly(s: State, message: Message)
    ensures OnlyFailed(s, Fail(s, message), message)
  {
  }

  lemma Publishes(s: State, next: Profile)
    ensures var t := Succeed(Publish(s.(readiness := map[]), next));
            && Saved(t, next) && t.readiness == map[] && t.initialized == s.initialized
            && SameRuntimeFields(s, t) && SamePairingFields(s, t)
  {
  }

  /** Configuring a project saves and shows the new configuration and forgets all readiness, if it is valid. */
  lemma ConfigurationSaved(s: State, draft: Draft, repoFullName: string, suffix: Suffix, saved: bool)
    returns (next: Profile)
    requires s.current == Some(SaveProject(draft)) && s.profile.Some? && Good(s.profile.value)
    ensures Configures(s.profile.value, draft, repoFullName, suffix, next)
    ensures var t := End(s, Configured(repoFullName, suffix, saved));
            && (ValidProfile(next) && saved ==>
                  && Saved(t, next) && t.readiness == map[] && t.initialized == s.initialized
                  && SameRuntimeFields(s, t) && SamePairingFields(s, t))
            && (!(ValidProfile(next) && saved) ==>
                  OnlyFailed(s, t, if ValidProfile(next) then NotSaved else InvalidProfile))
  {
    next := WithProject(s.profile.value, draft, repoFullName, suffix);
    var out := Configured(repoFullName, suffix, saved);
    assert End(s, out) == EndSave(s, draft, out);
    assert End(s, out) == if !ValidProfile(next) then Fail(s, InvalidProfile) else if !saved then Fail(s, NotSaved)
                          else Succeed(Publish(s.(readiness := map[]), next));
    hide *;
    WithProjectConfigures(s.profile.value, draft, repoFullName, suffix);
    Publishes(s, next);
    FailsOnly(s, InvalidProfile);
    FailsOnly(s, NotSaved);
  }

  /** A readiness run records its result for its project alone, unless some project belongs to another agent. */
  lemma ReadinessRecorded(s: State, key: string, ok: bool)
    requires s.current == Some(RunReadiness(key)) && s.profile.Some?
    ensures var t, p := End(s, Checked(ok)), s.profile.value;
            var own := forall i :: 0 <= i < |p.projects| ==> p.connection.projectKeyPrefix <= p.projects[i].key;
            && (!own ==> OnlyFailed(s, t, ForeignProject))
            && (own ==>
                  && t.current == None && t.error == None
                  && key in t.readiness && t.readiness[key] == ok
                  && (forall k :: k != key ==> (k in t.readiness <==> k in s.readiness))
                  && (forall k :: k != key && k in s.readiness ==> t.readiness[k] == s.readiness[k])
                  && SameProfileFields(s.(readiness := t.readiness), t)
                  && SameRuntimeFields(s, t) && SamePairingFields(s, t))
  {
    assert End(s, Checked(ok)) == EndReadiness(s, key, ok);
    hide End;
    FailsOnly(s, ForeignProject);
    RecordsOne(s.readiness, key, ok);
    hide OnlyFailed, Fail;
  }

  lemma RecordsOne(m: map<string, bool>, key: string, ok: bool)
    ensures var n := m[key := ok];
            && key in n && n[key] == ok && (forall k :: k != key ==> (k in n <==> k in m))
            && forall k :: k != key && k in m ==> n[k] == m[k]
  {
  }

  /** A claim saves the received connection at the addresses of the pairing, with every project under a new key. */
  lemma ClaimConnects(
      s: State, agentId: string, authToken: string, prefix: string, ownerName: string, suffixes: seq<Suffix>,
      saved: bool)
    returns (next: Profile)
    requires s.current == Some(PollPairing) && s.pairing.Some?
    requires |suffixes| == if s.profile.Some? then |s.profile.value.projects| else 0
    ensures next.connection == Connection(s.pairing.value.backendUrl, s.pairing.value.frontendUrl,
                                          agentId, authToken, prefix, ownerName)
    ensures var former := if s.profile.Some? then s.profile.value.projects else [];
            && |next.projects| == |former|
            && forall i :: 0 <= i < |former| ==> next.projects[i] == Project(former[i].draft, prefix + suffixes[i])
    ensures var t := End(s, Claimed(agentId, authToken, prefix, ownerName, suffixes, saved));
            && (ValidProfile(next) && saved ==>
                  && Saved(t, next) && t.readiness == map[] && t.pairing == None && t.initialized == s.initialized
                  && SameRuntimeFields(s, t))
            && (ValidProfile(next) && !saved ==>
                  && t.pairing == None && t.error == Some(PairedButNotSaved) && t.current == None
                  && SameProfileFields(s, t) && SameRuntimeFields(s, t))
            && (!ValidProfile(next) ==> OnlyFailed(s, t, InvalidProfile))
  {
    var out := Claimed(agentId, authToken, prefix, ownerName, suffixes, saved);
    next := ClaimedProfile(s, out);
    assert End(s, out) == EndPoll(s, out);
    hide ValidProfile, End, Rekeyed;
    FailsOnly(s, InvalidProfile);
    Publishes(ClearPairing(s), next);
    hide OnlyFailed, Saved, SamePairingFields;
  }

  /** What is asked of a profile before it is saved. */
  lemma ValidMeans(p: Profile)
    ensures var c := p.connection;
            ValidProfile(p) <==>
            && 1 <= |c.agentId| <= 128 && 32 <= |c.authToken| && 2 <= |c.projectKeyPrefix| <= 100
            && c.projectKeyPrefix[|c.projectKeyPrefix| - 1] == '-' && |p.projects| <= 100
            && (forall i :: 0 <= i < |c.agentId| ==> KeyChar(c.agentId[i]))
            && (forall i :: 0 <= i < |c.projectKeyPrefix| ==> KeyChar(c.projectKeyPrefix[i]))
            && (forall i :: 0 <= i < |p.projects| ==>
                  1 <= |p.projects[i].key| <= 128
                  && forall j :: 0 <= j < |p.projects[i].key| ==> KeyChar(p.projects[i].key[j]))
  {
    hide KeyChar;
  }

  /** Letters, digits, dot, underscore and hyphen. */
  lemma KeyCharMeans(c: char)
    ensures KeyChar(c) <==>
            || ('A' as int <= c as int < 'A' as int + 26) || ('a' as int <= c as int < 'a' as int + 26)
            || ('0' as int <= c as int < '0' as int + 10) || c in {'.', '_', '-'}
  {
  }

  /** The other ends: what was awaited has its effect, and nothing else changes. */
  lemma OtherEnds(s: State, out: Outcome)
    requires s.current.Some?
    ensures var t, op := End(s, out), s.current.value;
            && (op.Initialize? && out.Loaded? ==>
                  && t.initialized && t.profile == s.stored && t.stored == s.stored && t.readiness == s.readiness
                  && (s.stored.Some? ==> t.projects == s.stored.value.projects)
                  && (s.stored.None? ==> t.projects == s.projects)
                  && t.current == None && t.error == None && SameRuntimeFields(s, t) && SamePairingFields(s, t))
            && (op.BeginPairing? && out.Begun? && out.now < out.started.expiresAt ==>
                  t == s.(pairing := Some(out.started), nextPairingPoll := 0, claims := [],
                          current := None, error := None))
            && (op.BeginPairing? && out.Begun? && out.now >= out.started.expiresAt ==> OnlyFailed(s, t, CodeExpired))
            && (op.PollPairing? && s.pairing.Some? && out.Pending? ==> t == s.(current := None, error := None))
            && (op in {CheckTools, LoginCodex} && out.Done? ==> t == s.(current := None, error := None))
            && (op.Stop? && out.Done? ==>
                  && t.runtime == None && !t.running && t.status == Stopped && !t.busy
                  && t.live == (if s.runtime.Some? then s.live - {s.runtime.value} else s.live)
                  && t.runtimeGeneration == s.runtimeGeneration + 1 && t.current == None && t.error == None
                  && SameProfileFields(s, t) && SamePairingFields(s, t))
  {
  }

  /** A failure leaves everything but the error; a failed start also shows it and spends its generation. */
  lemma FailureMeans(s: State, message: Message)
    requires s.current.Some?
    ensures var t := End(s, Failed(message));
            && (s.current != Some(Start) ==> OnlyFailed(s, t, message))
            && (s.current == Some(Start) ==>
                  && t.current == None && t.error == Some(message) && t.status == Error && !t.busy
                  && t.runtimeGeneration == s.runtimeGeneration + 1 && t.runtime == s.runtime && t.live == s.live
                  && t.running == s.running && SameProfileFields(s, t) && SamePairingFields(s, t))
    ensures s.current in {Some(BeginPairing), Some(PollPairing)} ==>
              && End(s, PairingUnavailable).pairing == None
              && OnlyFailed(s.(pairing := None), End(s, PairingUnavailable), CodeUnavailable)
  {
  }

  /** A start runs exactly if every key carries the prefix; otherwise it fails like any start. */
  lemma StartMeans(s: State)
    requires s.current == Some(Start) && s.profile.Some?
    ensures var t, p := End(s, Done), s.profile.value;
            var own := forall i :: 0 <= i < |p.projects| ==> p.connection.projectKeyPrefix <= p.projects[i].key;
            && (own ==>
                  && t.runtime == Some(s.runtimeGeneration) && t.live == s.live + {s.runtimeGeneration} && t.running
                  && t.runtimeGeneration == s.runtimeGeneration && t.status == s.status && t.busy == s.busy
                  && t.current == None && t.error == None && SameProfileFields(s, t) && SamePairingFields(s, t))
            && (!own ==> t == End(s, Failed(ForeignProject)))
  {
    assert End(s, Done) == EndStart(s) && End(s, Failed(ForeignProject)) == Fail(StartFailed(s), ForeignProject);
    hide End;
  }
}
