/**
 * The desktop agent manager as an object whose fields its operations reassign. Each awaited call
 * ends one method and starts the next. The object carries the world of the state machine in module
 * DesktopManager as ghost state, so each method keeps that machine's invariant and what follows from it
 * (packages/local-agent/src/desktop/desktop-agent-manager.ts, lines 48 to 446).
 */
module DesktopAgent {
  import opened Common
  import opened DesktopManager

  class DesktopAgentManager {
    var initialized: bool
    var profile: Option<Profile>
    var pairing: Option<Pairing>
    var nextPairingPoll: int
    var runtime: Option<nat>
    var runtimeGeneration: nat
    var status: Status
    var running: bool
    var busy: bool
    var error: Option<Message>
    var projects: seq<Project>
    var readiness: map<string, bool>
    var current: Option<Op>
    var stored: Option<Profile>
    var live: set<nat>
    var claims: seq<int>
    ghost var world: World

    function View(): State
      reads this
    {
      State(initialized, profile, pairing, nextPairingPoll, runtime, runtimeGeneration, status, running, busy, error,
            projects, readiness, current, stored, live, claims)
    }

    /** The object is the manager of a world that meets the invariant of all runs from a good saved profile. */
    ghost predicate Valid()
      reads this
    {
      world.state == View() && Inv(world)
    }

    /** What holds at every moment between two segments. */
    ghost predicate Safe()
      reads this
    {
      && |live| <= 1 && (running <==> live != {})
      && (runtime.Some? ==> live == {runtime.value} && pairing.None?)
      && (live == {} && current != Some(Start) ==> (status == Stopped || status == Error) && !busy)
      && (initialized ==> profile == stored && projects == ProjectsOf(stored))
      && (profile.Some? ==> Good(profile.value))
    }

    lemma ValidIsSafe()
      requires Valid()
      ensures Safe()
    {
      hide FindKey, Good;
    }

    constructor (saved: Option<Profile>, now: int)
      requires saved.Some? ==> Good(saved.value)
      ensures View() == Initial(saved) && world == InitialWorld(saved, now)
      ensures Valid() && Safe()
    {
      initialized, profile, pairing, nextPairingPoll := false, None, None, 0;
      runtime, runtimeGeneration := None, 0;
      status, running, busy, error := Stopped, false, false, None;
      projects, readiness, current := [], map[], None;
      stored, live, claims := saved, {}, [];
      world := InitialWorld(saved, now);
      new;
      InitialInv(saved, now);
      ValidIsSafe();
    }

    method Resolve()
      modifies this`current, this`error
      ensures View() == Succeed(old(View()))
    {
      current, error := None, None;
    }

    method Reject(message: Message)
      modifies this`current, this`error
      ensures View() == Fail(old(View()), message)
    {
      current, error := None, Some(message);
    }

    /** Saving comes first: a profile that could not be saved is never published. */
    method PublishProfile(p: Profile)
      modifies this`profile, this`stored, this`projects
      ensures View() == Publish(old(View()), p)
    {
      stored := Some(p);
      profile := Some(p);
      projects := p.projects;
    }

    method Idle()
      modifies this`running, this`status, this`busy
      ensures View() == old(View()).(running := false, status := Stopped, busy := false)
    {
      running, status, busy := false, Stopped, false;
    }

    method Halt()
      modifies this`runtime, this`runtimeGeneration, this`running, this`status, this`busy
      ensures View() == Halted(old(View()))
    {
      runtime, runtimeGeneration := None, runtimeGeneration + 1;
      Idle();
    }

    method BeginPollPairing(now: int)
      modifies this
      ensures world == old(world)
      ensures View() == BeginPoll(old(View()), now)
    {
      hide Succeed, Fail, ClearPairing, EditError;
      var refusal := EditError(View());
      if pairing.None? {
        Resolve();
      } else if refusal.Some? {
        Reject(refusal.value);
      } else if pairing.value.expiresAt <= now {
        ForgetPairing(false);
        Reject(CodeExpired);
      } else if now < nextPairingPoll {
        Resolve();
      } else {
        MakeClaim(now);
      }
    }

    /** The next claim is due after the interval. */
    method MakeClaim(now: int)
      requires pairing.Some?
      modifies this`nextPairingPoll, this`claims, this`current
      ensures View() == old(View()).(current := Some(PollPairing), claims := old(claims) + [now],
                                     nextPairingPoll := now + pairing.value.intervalSeconds * 1000)
    {
      nextPairingPoll := now + pairing.value.intervalSeconds * 1000;
      claims := claims + [now];
      current := Some(PollPairing);
    }

    method Wait(op: Op)
      modifies this`current
      ensures View() == old(View()).(current := Some(op))
    {
      current := Some(op);
    }

    method BeginStartAgent()
      modifies this
      ensures world == old(world)
      ensures View() == BeginStart(old(View()))
    {
      hide Fail, ProfileError;
      var refusal := ProfileError(View());
      if runtime.Some? {
        Reject(AlreadyRunning);
      } else if pairing.Some? {
        Reject(PairingUnfinished);
      } else if refusal.Some? {
        Reject(refusal.value);
      } else {
        assert profile.Some? by { ProfileKnown(View()); }
        if profile.value.projects == [] {
          Reject(NoProjects);
        } else {
          AnnounceStart();
        }
      }
    }

    method AnnounceStart()
      modifies this`status, this`error, this`runtimeGeneration, this`current
      ensures View() == old(View()).(current := Some(Start), status := Starting, error := None,
                                     runtimeGeneration := old(runtimeGeneration) + 1)
    {
      status := Starting;
      error := None;
      runtimeGeneration := runtimeGeneration + 1;
      current := Some(Start);
    }

    method BeginEditingOp(op: Op)
      modifies this
      ensures world == old(world)
      ensures View() == BeginEditing(old(View()), op)
    {
      hide Fail, EditError;
      var refusal := EditError(View());
      if refusal.Some? {
        Reject(refusal.value);
      } else {
        Wait(op);
      }
    }

    method BeginProjectOp(op: Op, edits: bool, key: Option<string>)
      modifies this
      ensures world == old(world)
      ensures View() == BeginOnProject(old(View()), op, edits, key)
    {
      hide FindKey, Fail, EditError, ProfileError;
      var refusal := EditError(View());
      if edits && refusal.Some? {
        Reject(refusal.value);
        return;
      }
      refusal := ProfileError(View());
      if refusal.Some? {
        Reject(refusal.value);
        return;
      }
      assert profile.Some? by { ProfileKnown(View()); }
      if key.Some? && FindKey(profile.value.projects, key.value).None? {
        Reject(UnknownProject);
      } else {
        Wait(op);
      }
    }

    /** The operations that need no check of the profile. */
    method BeginUnchecked(op: Op, now: int)
      requires current.None? && (op.Initialize? || op.CancelPairing? || op.CheckTools?)
      modifies this
      ensures world == old(world)
      ensures View() == Begin(old(View()), op, now)
    {
      hide Halted, Succeed, BeginEditing, BeginPoll, BeginOnProject, BeginStart;
      if op.CancelPairing? {
        pairing := None;
        Resolve();
      } else if op.Initialize? && initialized {
        Resolve();
      } else {
        current := Some(op);
      }
    }

    method BeginStop(now: int)
      requires current.None?
      modifies this
      ensures world == old(world)
      ensures View() == Begin(old(View()), Stop, now)
    {
      hide Halted, Succeed;
      if runtime.Some? {
        current := Some(Stop);
        return;
      }
      Halt();
      Resolve();
    }

    /** What an operation does before its first awaited call. */
    method BeginSegment(op: Op, now: int)
      modifies this
      ensures world == old(world)
      ensures View() == Begin(old(View()), op, now)
    {
      hide BeginPoll, BeginStart, BeginEditing, BeginOnProject, Succeed, Fail, Halted;
      if current.Some? {
        return;
      }
      match op
      case BeginPairing => BeginEditingOp(op);
      case LoginCodex => BeginEditingOp(op);
      case PollPairing => BeginPollPairing(now);
      case SaveProject(_) => BeginProjectOp(op, true, None);
      case RemoveProject(key) => BeginProjectOp(op, true, Some(key));
      case RunReadiness(key) => BeginProjectOp(op, false, Some(key));
      case Start => BeginStartAgent();
      case Stop => BeginStop(now);
      case _ => BeginUnchecked(op, now);
    }

    method EndPollPairing(out: Outcome)
      requires pairing.Some?
      modifies this
      ensures world == old(world)
      ensures View() == EndPoll(old(View()), out)
    {
      hide ValidProfile, Rekeyed, Succeed, Fail, Publish, ClearPairing;
      var known := ProjectsOf(profile);
      if out.Pending? {
        Resolve();
      } else if out.Claimed? && |out.suffixes| == |known| {
        var connection := Connection(pairing.value.backendUrl, pairing.value.frontendUrl, out.agentId, out.authToken,
                                     out.projectKeyPrefix, out.ownerName);
        var next := Profile(connection, Rekeyed(known, out.projectKeyPrefix, out.suffixes));
        if ValidProfile(next) {
          ForgetPairing(out.saved);
          if out.saved {
            PublishProfile(next);
            Resolve();
          } else {
            Reject(PairedButNotSaved);
          }
        } else {
          Reject(InvalidProfile);
        }
      }
    }

    /** The pairing is over; what was known of readiness goes with a saved one. */
    method ForgetPairing(saved: bool)
      modifies this`pairing, this`readiness
      ensures View() == ClearPairing(if saved then old(View()).(readiness := map[]) else old(View()))
    {
      pairing := None;
      if saved {
        readiness := map[];
      }
    }

    method EndSaveProject(draft: Draft, out: Outcome)
      requires profile.Some?
      modifies this
      ensures world == old(world)
      ensures View() == EndSave(old(View()), draft, out)
    {
      hide ValidProfile, WithProject;
      if out.Configured? {
        var next := WithProject(profile.value, draft, out.repoFullName, out.suffix);
        if !ValidProfile(next) {
          Reject(InvalidProfile);
        } else if !out.saved {
          Reject(NotSaved);
        } else {
          readiness := map[];
          PublishProfile(next);
          Resolve();
        }
      }
    }

    method EndRemoveProject(key: string, out: Outcome)
      requires profile.Some?
      modifies this
      ensures world == old(world)
      ensures View() == EndRemove(old(View()), key, out)
    {
      hide WithoutKey;
      if out.Written? {
        if !out.saved {
          Reject(NotSaved);
        } else {
          readiness := readiness - {key};
          PublishProfile(profile.value.(projects := WithoutKey(profile.value.projects, key)));
          Resolve();
        }
      }
    }

    method FailStart()
      modifies this`runtimeGeneration, this`status, this`busy
      ensures View() == StartFailed(old(View()))
    {
      runtimeGeneration := runtimeGeneration + 1;
      status, busy := Error, false;
    }

    method EndStartAgent()
      requires profile.Some?
      modifies this
      ensures world == old(world)
      ensures View() == EndStart(old(View()))
    {
      hide Prefixed;
      if !Prefixed(profile.value) {
        FailStart();
        Reject(ForeignProject);
      } else {
        runtime := Some(runtimeGeneration);
        live := live + {runtimeGeneration};
        running := true;
        Resolve();
      }
    }

    method EndStopAgent()
      modifies this
      ensures world == old(world)
      ensures View() == EndStop(old(View()))
    {
      if runtime.Some? {
        live := live - {runtime.value};
      } else {
        assert live - {} == live;
      }
      Halt();
      Resolve();
    }

    method EndInitialization()
      modifies this
      ensures world == old(world)
      ensures View() == EndInitialize(old(View()))
    {
      profile := stored;
      if stored.Some? {
        projects := stored.value.projects;
      }
      initialized := true;
      Resolve();
    }

    method EndReadinessRun(key: string, ok: bool)
      requires profile.Some?
      modifies this
      ensures world == old(world)
      ensures View() == EndReadiness(old(View()), key, ok)
    {
      hide Prefixed;
      if !Prefixed(profile.value) {
        Reject(ForeignProject);
      } else {
        readiness := readiness[key := ok];
        Resolve();
      }
    }

    method EndFailed(op: Op, out: Outcome)
      requires current == Some(op) && (out.Failed? || out.PairingUnavailable?)
      modifies this
      ensures world == old(world)
      ensures View() == End(old(View()), out)
    {
      if out.Failed? {
        if op.Start? {
          FailStart();
        }
        Reject(out.message);
      } else if op.BeginPairing? || op.PollPairing? {
        pairing := None;
        Reject(CodeUnavailable);
      }
    }

    method EndPairing(started: Pairing, now: int)
      modifies this
      ensures world == old(world)
      ensures View() == EndBegun(old(View()), started, now)
    {
      if started.expiresAt <= now {
        Reject(CodeExpired);
      } else {
        pairing, nextPairingPoll, claims := Some(started), 0, [];
        Resolve();
      }
    }

    method EndProjectOperation(op: Op, out: Outcome)
      requires current == Some(op) && (op.SaveProject? || op.RemoveProject? || op.RunReadiness?)
      requires !out.Failed? && !out.PairingUnavailable?
      modifies this
      ensures world == old(world)
      ensures View() == End(old(View()), out)
    {
      hide EndReadiness, EndSave, EndRemove;
      if profile.Some? {
        match op
        case SaveProject(draft) => EndSaveProject(draft, out);
        case RemoveProject(key) => EndRemoveProject(key, out);
        case RunReadiness(key) =>
          if out.Checked? {
            EndReadinessRun(key, out.ok);
          }
      }
    }

    /** The ends of loading the profile, of beginning a pairing and of polling one. */
    method EndConnecting(op: Op, out: Outcome)
      requires current == Some(op) && (op.Initialize? || op.BeginPairing? || op.PollPairing?)
      requires !out.Failed? && !out.PairingUnavailable?
      modifies this
      ensures world == old(world)
      ensures View() == End(old(View()), out)
    {
      hide EndInitialize, EndBegun, EndPoll;
      if op.Initialize? && out.Loaded? {
        EndInitialization();
      } else if op.BeginPairing? && out.Begun? {
        EndPairing(out.started, out.now);
      } else if op.PollPairing? && pairing.Some? {
        EndPollPairing(out);
      }
    }

    /** What an operation does after its awaited calls. */
    method EndSegment(out: Outcome)
      modifies this
      ensures world == old(world)
      ensures View() == End(old(View()), out)
    {
      if current.None? {
        return;
      }
      if out.Failed? || out.PairingUnavailable? {
        EndFailed(current.value, out);
        return;
      }
      if current.value.SaveProject? || current.value.RemoveProject? || current.value.RunReadiness? {
        EndProjectOperation(current.value, out);
        return;
      }
      if current.value.Initialize? || current.value.BeginPairing? || current.value.PollPairing? {
        EndConnecting(current.value, out);
        return;
      }
      hide EndInitialize, EndBegun, EndPoll, EndStart, EndStop, EndReadiness, EndSave, EndRemove;
      hide Fail, Succeed, ClearPairing, StartFailed;
      match current.value
      case Start =>
        if out.Done? && profile.Some? {
          EndStartAgent();
        }
      case Stop =>
        if out.Done? {
          EndStopAgent();
        }
      case CheckTools =>
        if out.Done? {
          Resolve();
        }
      case LoginCodex =>
        if out.Done? {
          Resolve();
        }
      case _ =>
    }

    /** An operation leaves the queue and runs up to its first awaited call. */
    method BeginOperation(op: Op, now: int)
      requires Valid() && Enabled(world, BeginOp(op, now))
      modifies this
      ensures world == Take(old(world), BeginOp(op, now)) && View() == Begin(old(View()), op, now)
      ensures Valid() && Safe()
    {
      hide Inv, Begin, Safe;
      BeginSegment(op, now);
      StepKeeps(world, BeginOp(op, now));
      world := Take(world, BeginOp(op, now));
      ValidIsSafe();
    }

    /** The awaited calls of the running operation end, and the rest of it runs. */
    method EndOperation(out: Outcome)
      requires Valid() && Enabled(world, EndOp(out))
      modifies this
      ensures world == Take(old(world), EndOp(out)) && View() == End(old(View()), out)
      ensures Valid() && Safe()
    {
      hide Inv, End, Safe;
      EndSegment(out);
      StepKeeps(world, EndOp(out));
      world := Take(world, EndOp(out));
      ValidIsSafe();
    }

    method TakeReport(generation: nat, status': Status, busy': bool, message: Option<Message>)
      modifies this`status, this`busy, this`error
      ensures View() == OnStatus(old(View()), generation, status', busy', message)
    {
      if generation != runtimeGeneration {
        return;
      }
      status, busy, error := status', busy', message;
    }

    /** The status callback given to the runtime started as `generation`. */
    method ReportStatus(generation: nat, status': Status, busy': bool, message: Option<Message>)
      requires Valid() && generation in world.started
      modifies this
      ensures world == Take(old(world), Report(generation, status', busy', message))
      ensures View() == OnStatus(old(View()), generation, status', busy', message)
      ensures Valid() && Safe()
    {
      hide Inv, Safe, OnStatus;
      TakeReport(generation, status', busy', message);
      StepKeeps(world, Report(generation, status', busy', message));
      world := Take(world, Report(generation, status', busy', message));
      ValidIsSafe();
    }
  }
}
