/**
 * The life of a session: agent events, validation runs, closing and review requests
 * (apps/api/src/sessions/session-state-machine.ts, apps/api/src/sessions/session-events.service.ts,
 * apps/api/src/sessions/session-close.service.ts, apps/api/src/validation/validation.policy.ts,
 * apps/api/src/review-requests/create-review-request.use-case.ts).
 */
module SessionLifecycle {
  import opened Common

  datatype Status =
    | CREATED | AGENT_CONNECTING | WORKTREE_CREATING | DOCKER_STARTING | PREVIEW_STARTING
    | READY | AGENT_RUNNING | CHECKS_RUNNING | AWAITING_PM_VALIDATION
    | REVIEW_REQUEST_CREATING | REVIEW_REQUEST_CREATED | CLOSING | CLOSED | FAILED

  datatype Check = Build | Tests | Lint | Preview

  datatype CheckStatus = Passed | Failure | Skipped

  datatype Reason =
    | Text(text: string) | AgentRestarted | StillFailed | ExitCode(code: int) | ChecksFailed(checks: seq<Check>)

  datatype Session = Session(status: Status, lastError: Option<Reason>, previewUrl: Option<string>,
                             closedAt: Option<int>)

  datatype Checks = Checks(build: CheckStatus, tests: CheckStatus, lint: CheckStatus, preview: CheckStatus)

  datatype RunRecord = RunRecord(passed: bool, checks: Checks)

  datatype Event =
    | Progress(status: Status, message: Option<string>)
    | ReadyEvent(url: string)
    | Recovered(url: string)
    | Done(exitCode: int, changesDetected: Option<bool>)
    | ClosedEvent(now: int)
    | ErrorEvent(cause: string)
    | ChecksResult(checks: Checks)

  // ---- The state machine

  /** The states that a progress event may announce from each state. */
  predicate AllowedProgress(from: Status, to: Status) {
    match from
    case CREATED => to == AGENT_CONNECTING
    case AGENT_CONNECTING => to == WORKTREE_CREATING
    case WORKTREE_CREATING => to == DOCKER_STARTING
    case DOCKER_STARTING => to == PREVIEW_STARTING
    case READY => to == AGENT_RUNNING
    case AGENT_RUNNING => to == CHECKS_RUNNING
    case CHECKS_RUNNING => to == AGENT_RUNNING || to == AWAITING_PM_VALIDATION
    case AWAITING_PM_VALIDATION => to == AGENT_RUNNING || to == REVIEW_REQUEST_CREATING
    case FAILED => to == AGENT_RUNNING
    case REVIEW_REQUEST_CREATING => to == REVIEW_REQUEST_CREATED
    case _ => false
  }

  predicate Transition(from: Status, to: Status) {
    if to == READY then from == PREVIEW_STARTING
    else (to == CLOSED && from == CLOSING) || AllowedProgress(from, to)
  }

  predicate IsProgress(s: Status) {
    s != CREATED && s != READY && s != CLOSING && s != CLOSED && s != FAILED
  }

  predicate Preparing(s: Status) {
    s == CREATED || s == AGENT_CONNECTING || s == WORKTREE_CREATING || s == DOCKER_STARTING || s == PREVIEW_STARTING
  }

  predicate Operating(s: Status) {
    s == AGENT_RUNNING || s == CHECKS_RUNNING || s == REVIEW_REQUEST_CREATING
  }

  function Listed(check: Check, status: CheckStatus): seq<Check> {
    if status == Passed then [] else [check]
  }

  /** The checks that did not pass; a skipped one counts as failed. */
  function FailedChecks(c: Checks): seq<Check> {
    Listed(Build, c.build) + Listed(Tests, c.tests) + Listed(Lint, c.lint) + Listed(Preview, c.preview)
  }

  predicate AllPassed(c: Checks) {
    c.build == Passed && c.tests == Passed && c.lint == Passed && c.preview == Passed
  }

  /** The state in which a prompt without changes leaves the session: that of its latest validation. */
  function ResumeStatus(runs: seq<RunRecord>): Status {
    if runs == [] then READY else if runs[|runs| - 1].passed then AWAITING_PM_VALIDATION else FAILED
  }

  /** The session after an event; `None` when the transition is invalid and nothing is written. */
  function Applied(s: Session, runs: seq<RunRecord>, e: Event): Option<Session> {
    match e
    case Progress(status, message) =>
      if !IsProgress(status) || !Transition(s.status, status) then None
      else Some(s.(status := status, lastError := if message.Some? then Some(Text(message.value)) else None))
    case ReadyEvent(url) =>
      if !Transition(s.status, READY) then None
      else Some(s.(status := READY, previewUrl := Some(url), lastError := None))
    case Recovered(url) =>
      if Preparing(s.status) then Some(s.(status := READY, previewUrl := Some(url), lastError := None))
      else if Operating(s.status) then
        Some(s.(status := FAILED, previewUrl := Some(url), lastError := Some(AgentRestarted)))
      else Some(s.(previewUrl := Some(url)))
    case Done(exitCode, changesDetected) =>
      if exitCode != 0 then Some(s.(status := FAILED, lastError := Some(ExitCode(exitCode))))
      else if changesDetected == Some(false) then
        if s.status != AGENT_RUNNING then None
        else
          var resumed := ResumeStatus(runs);
          Some(s.(status := resumed, lastError := if resumed == FAILED then Some(StillFailed) else None))
      else if !Transition(s.status, CHECKS_RUNNING) then None
      else Some(s.(status := CHECKS_RUNNING, lastError := None))
    case ClosedEvent(now) =>
      Some(s.(status := CLOSED, closedAt := Some(if s.closedAt.Some? then s.closedAt.value else now)))
    case ErrorEvent(cause) => Some(s.(status := FAILED, lastError := Some(Text(cause))))
    case ChecksResult(checks) =>
      var failed := FailedChecks(checks);
      Some(if failed != [] then s.(status := FAILED, lastError := Some(ChecksFailed(failed)))
           else s.(status := AWAITING_PM_VALIDATION, lastError := None))
  }

  function Recorded(runs: seq<RunRecord>, e: Event): seq<RunRecord> {
    if e.ChecksResult? then runs + [RunRecord(FailedChecks(e.checks) == [], e.checks)] else runs
  }

  /** The rows of one session, as the event service updates them. */
  class SessionEvents {
    var session: Session
    var runs: seq<RunRecord>

    constructor ()
      ensures session == Session(CREATED, None, None, None) && runs == []
    {
      session, runs := Session(CREATED, None, None, None), [];
    }

    /** The state in which the latest validation leaves a prompt that made no changes. */
    method FindResumeStatus() returns (resumed: Status)
      ensures resumed == ResumeStatus(runs)
    {
      resumed := READY;
      if runs != [] && runs[|runs| - 1].passed {
        resumed := AWAITING_PM_VALIDATION;
      } else if runs != [] {
        resumed := FAILED;
      }
    }

    /** Writes what an event does, or nothing when the transition is invalid. */
    method Apply(event: Event) returns (applied: bool)
      modifies this
      ensures applied <==> Applied(old(session), old(runs), event).Some?
      ensures session == if applied then Applied(old(session), old(runs), event).value else old(session)
      ensures runs == if applied then Recorded(old(runs), event) else old(runs)
    {
      hide ResumeStatus, FailedChecks;
      var nextSession := session;
      match event {
        case Progress(status, message) =>
          if !IsProgress(status) || !Transition(session.status, status) {
            return false;
          }
          nextSession := nextSession.(status := status, lastError := None);
          if message.Some? {
            nextSession := nextSession.(lastError := Some(Text(message.value)));
          }
        case ReadyEvent(url) =>
          if session.status != PREVIEW_STARTING {
            return false;
          }
          nextSession := nextSession.(status := READY, previewUrl := Some(url), lastError := None);
        case Recovered(url) =>
          nextSession := nextSession.(previewUrl := Some(url));
          if Preparing(session.status) {
            nextSession := nextSession.(status := READY, lastError := None);
          } else if Operating(session.status) {
            nextSession := nextSession.(status := FAILED, lastError := Some(AgentRestarted));
          }
        case Done(exitCode, changesDetected) =>
          if exitCode != 0 {
            nextSession := nextSession.(status := FAILED, lastError := Some(ExitCode(exitCode)));
          } else if session.status != AGENT_RUNNING {
            return false;
          } else if changesDetected == Some(false) {
            var resumed := FindResumeStatus();
            nextSession := nextSession.(status := resumed, lastError := None);
            if resumed == FAILED {
              nextSession := nextSession.(lastError := Some(StillFailed));
            }
          } else {
            nextSession := nextSession.(status := CHECKS_RUNNING, lastError := None);
          }
        case ClosedEvent(now) =>
          nextSession := nextSession.(status := CLOSED);
          if session.closedAt.None? {
            nextSession := nextSession.(closedAt := Some(now));
          }
        case ErrorEvent(cause) =>
          nextSession := nextSession.(status := FAILED, lastError := Some(Text(cause)));
        case ChecksResult(checks) =>
          var failure := FailedChecks(checks);
          runs := runs + [RunRecord(failure == [], checks)];
          nextSession := nextSession.(status := AWAITING_PM_VALIDATION, lastError := None);
          if failure != [] {
            nextSession := nextSession.(status := FAILED, lastError := Some(ChecksFailed(failure)));
          }
      }
      session := nextSession;
      applied := true;
    }
  }

  // ---- The review policy

  /** Whether a review request may be created: the session waits for it and all four checks of the latest run passed. */
  predicate CanCreateReview(runs: seq<RunRecord>, status: Status) {
    runs != [] && status == AWAITING_PM_VALIDATION && AllPassed(runs[|runs| - 1].checks)
  }

  // ---- Runs

  /** The stale values that a review request in progress will write back. */
  datatype Review = Review(previewUrl: Option<string>, closedAt: Option<int>)

  /** A session with its validation runs, the states it has been in, and the operations that wait for the agent. */
  datatype World = World(session: Session, runs: seq<RunRecord>, visited: set<Status>, closes: nat,
                         reviews: seq<Review>)

  datatype Step =
    | Agent(event: Event)
    | BeginClose                   // the session is read and local clean-up is requested
    | EndClose(now: int)
    | BeginReview                  // the policy is checked
    | EndReview(index: nat)

  function Initial(): World {
    World(Session(CREATED, None, None, None), [], {CREATED}, 0, [])
  }

  function Visit(w: World): World {
    w.(visited := w.visited + {w.session.status})
  }

  function Take(w: World, step: Step): World {
    match step
    case Agent(e) =>
      (match Applied(w.session, w.runs, e)
       case None => w
       case Some(next) => Visit(w.(session := next, runs := Recorded(w.runs, e))))
    case BeginClose => if w.session.status == CLOSED then w else w.(closes := w.closes + 1)
    case EndClose(now) =>
      if w.closes == 0 then w
      else Visit(w.(session := w.session.(status := CLOSED, lastError := None, closedAt := Some(now)),
                    closes := w.closes - 1))
    case BeginReview =>
      if !CanCreateReview(w.runs, w.session.status) then w
      else w.(reviews := w.reviews + [Review(w.session.previewUrl, w.session.closedAt)])
    case EndReview(index) =>
      if index >= |w.reviews| then w
      else
        var r := w.reviews[index];
        Visit(w.(session := Session(REVIEW_REQUEST_CREATED, None, r.previewUrl, r.closedAt),
                 reviews := w.reviews[..index] + w.reviews[index + 1..]))
  }

  function Run(w: World, steps: seq<Step>): World
    decreases steps
  {
    if steps == [] then w else Run(Take(w, steps[0]), steps[1..])
  }

  // ---- What every run keeps

  predicate Inv(w: World) {
    var s := w.session;
    && s.status in w.visited
    && (s.status == FAILED ==> s.lastError.Some?)
    && (s.status == READY ==> s.lastError.None?)
    && (s.status == CLOSED ==> s.closedAt.Some?)
    && s.status != CLOSING
    && (s.status == REVIEW_REQUEST_CREATING || s.status == REVIEW_REQUEST_CREATED || w.reviews != []
        ==> AWAITING_PM_VALIDATION in w.visited)
    && Truthful(w.runs)
  }

  /** A validation run is recorded as passed exactly when all its checks passed. */
  predicate Truthful(runs: seq<RunRecord>) {
    forall i :: 0 <= i < |runs| ==> (runs[i].passed <==> AllPassed(runs[i].checks))
  }

  lemma FailureMeans(c: Checks)
    ensures FailedChecks(c) == [] <==> AllPassed(c)
    ensures forall check :: check in FailedChecks(c) <==>
              match check
              case Build => c.build != Passed
              case Tests => c.tests != Passed
              case Lint => c.lint != Passed
              case Preview => c.preview != Passed
  {
  }

  lemma EventKeeps(w: World, e: Event)
    requires Inv(w)
    ensures Inv(Take(w, Agent(e)))
  {
    hide FailedChecks, Truthful;
    RecordedTruthful(w.runs, e);
    hide Recorded, AllPassed;
  }

  lemma RecordedTruthful(runs: seq<RunRecord>, e: Event)
    requires Truthful(runs)
    ensures Truthful(Recorded(runs, e))
  {
    if e.ChecksResult? {
      FailureMeans(e.checks);
    }
    hide FailedChecks, AllPassed;
  }

  lemma StepKeeps(w: World, step: Step)
    requires Inv(w)
    ensures Inv(Take(w, step))
  {
    if step.Agent? {
      EventKeeps(w, step.event);
    } else {
      hide Truthful, AllPassed;
    }
  }

  lemma {:induction false} RunKeeps(w: World, steps: seq<Step>)
    requires Inv(w)
    ensures Inv(Run(w, steps))
    decreases steps
  {
    if steps != [] {
      StepKeeps(w, steps[0]);
      hide Inv, Take;
      RunKeeps(Take(w, steps[0]), steps[1..]);
    }
  }

  /**
   * On every run: a failed session has an error and a ready one has none, a closed one has its closing
   * time, and review requests exist only after the session waited for validation.
   */
  lemma LifecycleSafety(steps: seq<Step>)
    ensures var w := Run(Initial(), steps);
            && (w.session.status == FAILED ==> w.session.lastError.Some?)
            && (w.session.status == READY ==> w.session.lastError.None?)
            && (w.session.status == CLOSED ==> w.session.closedAt.Some?)
            && w.session.status != CLOSING
            && (w.session.status == REVIEW_REQUEST_CREATING || w.session.status == REVIEW_REQUEST_CREATED
                ==> AWAITING_PM_VALIDATION in w.visited)
  {
    RunKeeps(Initial(), steps);
    hide Run;
  }

  // ---- The preparation ladder

  /** The rung of a preparation state; all other states lie above the ladder. */
  function Rung(s: Status): nat {
    match s
    case CREATED => 0
    case AGENT_CONNECTING => 1
    case WORKTREE_CREATING => 2
    case DOCKER_STARTING => 3
    case PREVIEW_STARTING => 4
    case _ => 5
  }

  lemma StepClimbs(w: World, step: Step)
    ensures var before, after := w.session.status, Take(w, step).session.status;
            && Rung(before) <= Rung(after)
            && (Preparing(after) && after != before ==> Rung(after) == Rung(before) + 1)
  {
    hide FailedChecks, AllPassed, Recorded;
    if step.Agent? {
      if Applied(w.session, w.runs, step.event).Some? {
        EventClimbs(w.session, w.runs, step.event);
      }
      hide Applied;
    }
  }

  lemma EventClimbs(s: Session, runs: seq<RunRecord>, e: Event)
    requires Applied(s, runs, e).Some?
    ensures var before, after := s.status, Applied(s, runs, e).value.status;
            && Rung(before) <= Rung(after)
            && (Preparing(after) && after != before ==> Rung(after) == Rung(before) + 1)
  {
    hide FailedChecks;
  }

  /** Preparation climbs one rung at a time and is never entered again. */
  lemma {:induction false} RunClimbs(w: World, steps: seq<Step>)
    ensures Rung(w.session.status) <= Rung(Run(w, steps).session.status)
    ensures !Preparing(w.session.status) ==> !Preparing(Run(w, steps).session.status)
    decreases steps
  {
    if steps != [] {
      StepClimbs(w, steps[0]);
      hide Take;
      RunClimbs(Take(w, steps[0]), steps[1..]);
    }
  }

  predicate LatestPassed(runs: seq<RunRecord>) {
    runs != [] && runs[|runs| - 1].passed
  }

  /** From where an agent event can lead into each state. */
  predicate Entrance(from: Status, to: Status, runs: seq<RunRecord>, e: Event) {
    match to
    case AGENT_CONNECTING => from == CREATED
    case WORKTREE_CREATING => from == AGENT_CONNECTING
    case DOCKER_STARTING => from == WORKTREE_CREATING
    case PREVIEW_STARTING => from == DOCKER_STARTING
    case READY => from == PREVIEW_STARTING || (Preparing(from) && e.Recovered?) || (from == AGENT_RUNNING && runs == [])
    case AGENT_RUNNING => from == READY || from == CHECKS_RUNNING || from == AWAITING_PM_VALIDATION || from == FAILED
    case CHECKS_RUNNING => from == AGENT_RUNNING
    case AWAITING_PM_VALIDATION =>
      || from == CHECKS_RUNNING || (e.ChecksResult? && AllPassed(e.checks))
      || (from == AGENT_RUNNING && LatestPassed(runs))
    case REVIEW_REQUEST_CREATING => from == AWAITING_PM_VALIDATION
    case REVIEW_REQUEST_CREATED => from == REVIEW_REQUEST_CREATING
    case CLOSED => e.ClosedEvent?
    case FAILED =>
      || e.ErrorEvent? || (e.ChecksResult? && !AllPassed(e.checks)) || (e.Done? && e.exitCode != 0)
      || (e.Recovered? && Operating(from)) || (from == AGENT_RUNNING && runs != [] && !LatestPassed(runs))
    case _ => false
  }

  /** An event that is applied keeps the state or comes through one of its entrances. */
  lemma EventEnters(s: Session, runs: seq<RunRecord>, e: Event)
    requires Applied(s, runs, e).Some?
    ensures Applied(s, runs, e).value.status == s.status
            || Entrance(s.status, Applied(s, runs, e).value.status, runs, e)
  {
    if e.ChecksResult? {
      FailureMeans(e.checks);
    }
    hide FailedChecks, AllPassed;
  }

  // ---- Closing

  /** Agent events never alter a closing time once it is set. */
  lemma EventsKeepClosedAt(w: World, e: Event)
    requires w.session.closedAt.Some?
    ensures Take(w, Agent(e)).session.closedAt == w.session.closedAt
  {
    hide FailedChecks, AllPassed;
  }

  /** Nor does any run without the end of a close, if the reviews in progress were started with that closing time. */
  lemma {:induction false} RunKeepsClosedAt(w: World, steps: seq<Step>)
    requires w.session.closedAt.Some?
    requires forall i :: 0 <= i < |w.reviews| ==> w.reviews[i].closedAt == w.session.closedAt
    requires forall i :: 0 <= i < |steps| ==> !steps[i].EndClose?
    ensures Run(w, steps).session.closedAt == w.session.closedAt
    decreases steps
  {
    if steps != [] {
      if steps[0].Agent? {
        EventsKeepClosedAt(w, steps[0].event);
      }
      assert Take(w, steps[0]).session.closedAt == w.session.closedAt;
      assert !steps[0].EndReview? && !steps[0].BeginReview? ==> Take(w, steps[0]).reviews == w.reviews;
      RunKeepsClosedAt(Take(w, steps[0]), steps[1..]);
    }
  }

  /**
   * What sets or alters the closing time: the first closed event, and the end of a close or of a review
   * that writes another.
   */
  predicate Alters(w: World, step: Step) {
    match step
    case Agent(e) => e.ClosedEvent? && w.session.closedAt.None?
    case EndClose(now) => w.closes > 0 && w.session.closedAt != Some(now)
    case EndReview(index) => index < |w.reviews| && w.reviews[index].closedAt != w.session.closedAt
    case _ => false
  }

  lemma ClosedAtAlteredBy(w: World, step: Step)
    ensures Take(w, step).session.closedAt != w.session.closedAt <==> Alters(w, step)
  {
    hide FailedChecks, AllPassed;
  }

  /** From a world that keeps it, a step leaves what is seen exactly if it does not break it, and then keeps it. */
  ghost predicate Guarded(keep: World -> bool, seen: World -> bool, breaks: (World, Step) -> bool) {
    && (forall w :: keep(w) ==> seen(w))
    && forall w, step :: keep(w) ==>
         (seen(Take(w, step)) <==> !breaks(w, step)) && (seen(Take(w, step)) ==> keep(Take(w, step)))
  }

  /** It is seen all along a run exactly if no step breaks it where it is taken. */
  lemma {:induction false} SeenThroughout(
      w: World, steps: seq<Step>, keep: World -> bool, seen: World -> bool, breaks: (World, Step) -> bool)
    requires Guarded(keep, seen, breaks) && keep(w)
    ensures (forall n :: 0 <= n <= |steps| ==> seen(Run(w, steps[..n])))
       <==> (forall n :: 0 <= n < |steps| ==> !breaks(Run(w, steps[..n]), steps[n]))
    decreases steps
  {
    hide Take;
    if steps != [] {
      var next, rest := Take(w, steps[0]), steps[1..];
      RunPrefixes(w, steps);
      assert Run(w, steps[..1]) == next;
      assert seen(w) && (seen(next) <==> !breaks(w, steps[0]));
      if seen(next) {
        SeenThroughout(next, rest, keep, seen, breaks);
        hide Run, Guarded;
        assert forall n :: 0 <= n < |rest| ==>
            rest[n] == steps[n + 1] && Run(next, rest[..n]) == Run(w, steps[..n + 1]);
        assert Run(next, rest[..|rest|]) == Run(w, steps[..|rest| + 1]);
        forall n | 0 < n < |steps|
          ensures breaks(Run(w, steps[..n]), steps[n]) <==> breaks(Run(next, rest[..n - 1]), rest[n - 1])
        {
        }
        forall n | 0 < n <= |steps|
          ensures seen(Run(w, steps[..n])) <==> seen(Run(next, rest[..n - 1]))
        {
        }
      }
    }
  }

  /** Over a run the closing time stays exactly if no step alters it where it is taken. */
  lemma ClosedAtKept(w: World, steps: seq<Step>)
    ensures (forall n :: 0 <= n <= |steps| ==> Run(w, steps[..n]).session.closedAt == w.session.closedAt)
       <==> (forall n :: 0 <= n < |steps| ==> !Alters(Run(w, steps[..n]), steps[n]))
  {
    hide Take, Alters, Run;
    var same := (x: World) => x.session.closedAt == w.session.closedAt;
    forall x: World, step | same(x)
      ensures same(Take(x, step)) <==> !Alters(x, step)
    {
      ClosedAtAlteredBy(x, step);
    }
    SeenThroughout(w, steps, same, same, Alters);
  }

  lemma RunPrefixes(w: World, steps: seq<Step>)
    requires steps != []
    ensures Run(w, steps[..0]) == w
    ensures forall n :: 0 < n <= |steps| ==> Run(w, steps[..n]) == Run(Take(w, steps[0]), steps[1..][..n - 1])
  {
    hide Take;
    forall n | 0 < n <= |steps|
      ensures Run(w, steps[..n]) == Run(Take(w, steps[0]), steps[1..][..n - 1])
    {
      assert steps[..n][1..] == steps[1..][..n - 1];
    }
  }

  /** A close that waits for the agent sets the time anew, although the agent's closed event came first. */
  lemma CloseResetsClosedAt(first: int, second: int)
    ensures var closed := Run(Initial(), [BeginClose, Agent(ClosedEvent(first))]);
            && closed.session.status == CLOSED && closed.session.closedAt == Some(first)
            && Take(closed, EndClose(second)).session.closedAt == Some(second)
  {
    var begun := Take(Initial(), BeginClose);
    assert [BeginClose, Agent(ClosedEvent(first))][1..] == [Agent(ClosedEvent(first))];
    assert [Agent(ClosedEvent(first))][1..] == [];
    assert Run(begun, [Agent(ClosedEvent(first))]) == Take(begun, Agent(ClosedEvent(first)));
  }

  /** A review request that was being created while the session was closed opens it again. */
  lemma ReviewUndoesClose(now: int)
    ensures var passed := Checks(Passed, Passed, Passed, Passed);
            var closed := Run(Initial(), [Agent(ChecksResult(passed)), BeginReview, BeginClose, EndClose(now)]);
            && closed.session.status == CLOSED && closed.session.closedAt == Some(now)
            && Take(closed, EndReview(0)).session.status == REVIEW_REQUEST_CREATED
            && Take(closed, EndReview(0)).session.closedAt == None
  {
    var check := Agent(ChecksResult(Checks(Passed, Passed, Passed, Passed)));
    FourSteps(Initial(), check, BeginReview, BeginClose, EndClose(now));
    CloseDuringReview(Checks(Passed, Passed, Passed, Passed));
    hide Run, Initial;
    hide Take;
    CloseAndReview(Take(Take(Take(Initial(), check), BeginReview), BeginClose), now);
  }

  lemma FourSteps(w: World, a: Step, b: Step, c: Step, d: Step)
    ensures Run(w, [a, b, c, d]) == Take(Take(Take(Take(w, a), b), c), d)
  {
    hide Take;
    var v := Take(Take(w, a), b);
    TwoSteps(w, a, b, [c, d]);
    TwoSteps(v, c, d, []);
    assert [a, b] + [c, d] == [a, b, c, d] && [c, d] + [] == [c, d];
  }

  lemma TwoSteps(w: World, a: Step, b: Step, rest: seq<Step>)
    ensures Run(w, [a, b] + rest) == Run(Take(Take(w, a), b), rest)
  {
    hide Take;
    assert ([a, b] + rest)[1..] == [b] + rest && ([b] + rest)[1..] == rest;
  }

  lemma CloseDuringReview(checks: Checks)
    requires AllPassed(checks)
    ensures var w := Take(Take(Take(Initial(), Agent(ChecksResult(checks))), BeginReview), BeginClose);
            w.closes == 1 && w.reviews == [Review(None, None)]
  {
    FailureMeans(checks);
    hide FailedChecks;
    var checked := Take(Initial(), Agent(ChecksResult(checks)));
    assert checked.session == Session(AWAITING_PM_VALIDATION, None, None, None) && checked.closes == 0;
    assert CanCreateReview(checked.runs, checked.session.status);
    var begun := Take(checked, BeginReview);
    assert begun == checked.(reviews := [Review(None, None)]);
  }

  lemma CloseAndReview(w: World, now: int)
    requires w.closes > 0 && w.reviews != []
    ensures var closed := Take(w, EndClose(now));
            && closed.session.status == CLOSED && closed.session.closedAt == Some(now)
            && Take(closed, EndReview(0)).session.status == REVIEW_REQUEST_CREATED
            && Take(closed, EndReview(0)).session.closedAt == w.reviews[0].closedAt
  {
  }

  /**
   * What reopens a closed session: an error, a failed agent run, a validation result, or the end of a
   * review in progress.
   */
  predicate Reopens(w: World, step: Step) {
    match step
    case Agent(e) => e.ErrorEvent? || e.ChecksResult? || (e.Done? && e.exitCode != 0)
    case EndReview(index) => index < |w.reviews|
    case _ => false
  }

  lemma ClosedLeftBy(w: World, step: Step)
    requires w.session.status == CLOSED
    ensures Take(w, step).session.status != CLOSED <==> Reopens(w, step)
    ensures Take(w, step).session.status == CLOSED ==> Take(w, step).reviews == w.reviews
  {
    hide FailedChecks, AllPassed;
  }

  lemma ReopensSame(a: World, b: World)
    requires a.reviews == b.reviews
    ensures forall step :: Reopens(a, step) <==> Reopens(b, step)
  {
  }

  /**
   * A closed session stays closed all along a run exactly if no step of the run reopens it: with no review in
   * progress, exactly if the run has no error, failed agent run or validation result.
   */
  lemma StaysClosed(w: World, steps: seq<Step>)
    requires w.session.status == CLOSED
    ensures (forall n :: 0 <= n <= |steps| ==> Run(w, steps[..n]).session.status == CLOSED)
       <==> (forall n :: 0 <= n < |steps| ==> !Reopens(w, steps[n]))
  {
    hide Take, Reopens, Run;
    var closed := (x: World) => x.session.status == CLOSED;
    var keep := (x: World) => x.session.status == CLOSED && x.reviews == w.reviews;
    var breaks := (x: World, step: Step) => Reopens(w, step);
    forall x: World, step | keep(x)
      ensures (closed(Take(x, step)) <==> !breaks(x, step)) && (closed(Take(x, step)) ==> keep(Take(x, step)))
    {
      ClosedLeftBy(x, step);
      ReopensSame(x, w);
    }
    SeenThroughout(w, steps, keep, closed, breaks);
  }

  lemma SettledStep(w: World, step: Step)
    requires w.session.status == CLOSED && w.session.closedAt.Some? && w.closes == 0 && !Reopens(w, step)
    ensures var next := Take(w, step);
            && next.session.status == CLOSED && next.session.closedAt == w.session.closedAt
            && next.closes == 0 && next.reviews == w.reviews
  {
    hide FailedChecks, AllPassed;
  }

  /** Once no close is in progress either, a session that stays closed keeps its closing time. */
  lemma {:induction false} SettledKeepsTime(w: World, steps: seq<Step>)
    requires w.session.status == CLOSED && w.session.closedAt.Some? && w.closes == 0
    requires forall n :: 0 <= n < |steps| ==> !Reopens(w, steps[n])
    ensures Run(w, steps).session.status == CLOSED && Run(w, steps).session.closedAt == w.session.closedAt
    decreases steps
  {
    if steps != [] {
      SettledStep(w, steps[0]);
      ReopensSame(w, Take(w, steps[0]));
      hide Take, Reopens;
      SettledKeepsTime(Take(w, steps[0]), steps[1..]);
    }
  }

  // ---- Recovery

  /** Recovering twice is recovering once. */
  lemma RecoveryIdempotent(s: Session, runs: seq<RunRecord>, url: string)
    ensures Applied(s, runs, Recovered(url)).Some?
    ensures Applied(Applied(s, runs, Recovered(url)).value, runs, Recovered(url)) == Applied(s, runs, Recovered(url))
  {
  }

  // ---- Waiting for validation

  predicate Vouched(w: World) {
    w.session.status == AWAITING_PM_VALIDATION ==> LatestPassed(w.runs)
  }

  predicate Announces(step: Step) {
    step.Agent? && step.event.Progress? && step.event.status == AWAITING_PM_VALIDATION
  }

  lemma StepVouched(w: World, step: Step)
    requires Vouched(w)
    ensures !Announces(step) ==> Vouched(Take(w, step))
    ensures Announces(step) ==>
              (Vouched(Take(w, step)) <==> w.session.status != CHECKS_RUNNING || LatestPassed(w.runs))
  {
    hide AllPassed;
  }

  lemma {:induction false} RunVouched(w: World, steps: seq<Step>)
    requires Vouched(w) && forall i :: 0 <= i < |steps| ==> !Announces(steps[i])
    ensures Vouched(Run(w, steps))
    decreases steps
  {
    if steps != [] {
      StepVouched(w, steps[0]);
      hide Vouched, Take, Announces;
      RunVouched(Take(w, steps[0]), steps[1..]);
    }
  }

  /**
   * Unless a progress event announces it, a session waits for validation only after its latest run passed,
   * and then exactly the waiting session may get a review request.
   */
  lemma WaitingMeansPassed(steps: seq<Step>)
    requires forall i :: 0 <= i < |steps| ==> !Announces(steps[i])
    ensures var w := Run(Initial(), steps);
            && (w.session.status == AWAITING_PM_VALIDATION ==> LatestPassed(w.runs))
            && (CanCreateReview(w.runs, w.session.status) <==> w.session.status == AWAITING_PM_VALIDATION)
  {
    RunKeeps(Initial(), steps);
    RunVouched(Initial(), steps);
    hide Run, AllPassed;
  }

  // ---- What each event does

  /** The moves between states that progress may announce. */
  const MOVES: set<(Status, Status)> := {
    (CREATED, AGENT_CONNECTING), (AGENT_CONNECTING, WORKTREE_CREATING), (WORKTREE_CREATING, DOCKER_STARTING),
    (DOCKER_STARTING, PREVIEW_STARTING), (READY, AGENT_RUNNING), (AGENT_RUNNING, CHECKS_RUNNING),
    (CHECKS_RUNNING, AGENT_RUNNING), (CHECKS_RUNNING, AWAITING_PM_VALIDATION),
    (AWAITING_PM_VALIDATION, AGENT_RUNNING), (AWAITING_PM_VALIDATION, REVIEW_REQUEST_CREATING),
    (FAILED, AGENT_RUNNING), (REVIEW_REQUEST_CREATING, REVIEW_REQUEST_CREATED)}

  /** Progress is accepted exactly along these moves; it sets the state and takes its message for the error, or none. */
  lemma ProgressMoves(s: Session, runs: seq<RunRecord>, status: Status, message: Option<string>)
    ensures Applied(s, runs, Progress(status, message)) ==
            if (s.status, status) in MOVES
            then Some(Session(status, if message == None then None else Some(Text(message.value)), s.previewUrl,
                              s.closedAt))
            else None
  {
  }

  /** A ready event is accepted only from the last stage of preparation, and stores the address of the preview. */
  lemma ReadyStoresPreview(s: Session, runs: seq<RunRecord>, url: string)
    ensures Applied(s, runs, ReadyEvent(url)) ==
            if s.status == PREVIEW_STARTING then Some(Session(READY, None, Some(url), s.closedAt)) else None
  {
  }

  /** A recovery always stores the address; an interrupted preparation is ready, an interrupted operation has failed. */
  lemma RecoveryStoresPreview(s: Session, runs: seq<RunRecord>, url: string)
    ensures Applied(s, runs, Recovered(url)) == Some(
              if s.status in {CREATED, AGENT_CONNECTING, WORKTREE_CREATING, DOCKER_STARTING, PREVIEW_STARTING}
              then Session(READY, None, Some(url), s.closedAt)
              else if s.status in {AGENT_RUNNING, CHECKS_RUNNING, REVIEW_REQUEST_CREATING}
              then Session(FAILED, Some(AgentRestarted), Some(url), s.closedAt)
              else Session(s.status, s.lastError, Some(url), s.closedAt))
  {
  }

  /** The end of an agent's run: a failure, checks to run, or without changes the state of the latest validation. */
  lemma DoneMeans(s: Session, runs: seq<RunRecord>, exitCode: int, changesDetected: Option<bool>)
    ensures var r := Applied(s, runs, Done(exitCode, changesDetected));
            var latest := if runs == [] then None else Some(runs[|runs| - 1].passed);
            && (exitCode != 0 ==> r == Some(Session(FAILED, Some(ExitCode(exitCode)), s.previewUrl, s.closedAt)))
            && (exitCode == 0 && s.status != AGENT_RUNNING ==> r == None)
            && (exitCode == 0 && s.status == AGENT_RUNNING && changesDetected != Some(false) ==>
                  r == Some(Session(CHECKS_RUNNING, None, s.previewUrl, s.closedAt)))
            && (exitCode == 0 && s.status == AGENT_RUNNING && changesDetected == Some(false) ==>
                  r == Some(if latest == None then Session(READY, None, s.previewUrl, s.closedAt)
                            else if latest == Some(true)
                            then Session(AWAITING_PM_VALIDATION, None, s.previewUrl, s.closedAt)
                            else Session(FAILED, Some(StillFailed), s.previewUrl, s.closedAt)))
  {
  }

  /** A closed event keeps an earlier time, and a validation decides between waiting and failure. */
  lemma ResultsMean(s: Session, runs: seq<RunRecord>, now: int, cause: string, checks: Checks)
    ensures Applied(s, runs, ClosedEvent(now)) == Some(
              Session(CLOSED, s.lastError, s.previewUrl, if s.closedAt == None then Some(now) else s.closedAt))
    ensures Applied(s, runs, ErrorEvent(cause)) == Some(
              Session(FAILED, Some(Text(cause)), s.previewUrl, s.closedAt))
    ensures Applied(s, runs, ChecksResult(checks)) == Some(
              if checks == Checks(Passed, Passed, Passed, Passed)
              then Session(AWAITING_PM_VALIDATION, None, s.previewUrl, s.closedAt)
              else Session(FAILED, Some(ChecksFailed(FailedChecks(checks))), s.previewUrl, s.closedAt))
    ensures Recorded(runs, ChecksResult(checks))
         == runs + [RunRecord(checks == Checks(Passed, Passed, Passed, Passed), checks)]
    ensures forall e: Event :: !e.ChecksResult? ==> Recorded(runs, e) == runs
  {
    FailureMeans(checks);
    hide FailedChecks;
  }

  /** The failed checks are named in the order build, tests, lint, preview. */
  lemma FailuresInOrder(c: Checks)
    ensures FailedChecks(c) ==
            Filter((check: Check) => match check
                                     case Build => c.build != Passed
                                     case Tests => c.tests != Passed
                                     case Lint => c.lint != Passed
                                     case Preview => c.preview != Passed, [Build, Tests, Lint, Preview])
  {
    var failed := (check: Check) => match check
                                    case Build => c.build != Passed
                                    case Tests => c.tests != Passed
                                    case Lint => c.lint != Passed
                                    case Preview => c.preview != Passed;
    assert Listed(Build, c.build) == (if failed(Build) then [Build] else []);
    assert Listed(Tests, c.tests) == (if failed(Tests) then [Tests] else []);
    assert Listed(Lint, c.lint) == (if failed(Lint) then [Lint] else []);
    assert Listed(Preview, c.preview) == (if failed(Preview) then [Preview] else []);
    FilterFour(failed, Build, Tests, Lint, Preview);
    hide Filter, Listed;
  }

  lemma FilterFour<A>(p: A -> bool, a: A, b: A, c: A, d: A)
    ensures Filter(p, [a, b, c, d]) == (if p(a) then [a] else []) + (if p(b) then [b] else [])
                                       + (if p(c) then [c] else []) + (if p(d) then [d] else [])
  {
    hide Filter;
    FilterSnoc(p, [a, b, c], d);
    FilterSnoc(p, [a, b], c);
    FilterSnoc(p, [a], b);
    FilterShort(p, [a]);
    assert [a, b, c, d] == [a, b, c] + [d] && [a, b, c] == [a, b] + [c] && [a, b] == [a] + [b];
  }

  /** The other steps: a close and a review request write what they read or computed, whatever happened meanwhile. */
  lemma StepsMean(w: World, now: int, index: nat)
    ensures var t := Take(w, BeginClose);
            t == if w.session.status == CLOSED then w else w.(closes := w.closes + 1)
    ensures w.closes > 0 ==>
              var t := Take(w, EndClose(now));
              && t.session == Session(CLOSED, None, w.session.previewUrl, Some(now)) && t.closes == w.closes - 1
              && t.runs == w.runs && t.reviews == w.reviews
    ensures var t := Take(w, BeginReview);
            t == if w.runs != [] && w.session.status == AWAITING_PM_VALIDATION
                    && w.runs[|w.runs| - 1].checks == Checks(Passed, Passed, Passed, Passed)
                 then w.(reviews := w.reviews + [Review(w.session.previewUrl, w.session.closedAt)]) else w
    ensures index < |w.reviews| ==>
              var t := Take(w, EndReview(index));
              && t.session == Session(REVIEW_REQUEST_CREATED, None, w.reviews[index].previewUrl,
                                      w.reviews[index].closedAt)
              && t.reviews == w.reviews[..index] + w.reviews[index + 1..] && t.runs == w.runs && t.closes == w.closes
    ensures w.closes == 0 ==> Take(w, EndClose(now)) == w
    ensures index >= |w.reviews| ==> Take(w, EndReview(index)) == w
  {
  }
}
