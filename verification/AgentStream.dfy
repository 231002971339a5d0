/**
 * An agent process, its event queue and the consumer of the queue together
 * (packages/local-agent/src/harness/codex-harness.adapter.ts, lines 64 to 152 and 552 to 617).
 * The handlers of the process push what they add to its events, and its end closes or fails the queue.
 */
module AgentStream {
  import opened Common
  import HarnessQueue
  import HarnessOutput

  type Event = HarnessOutput.Event
  type Queue = HarnessQueue.World<HarnessOutput.Event>

  datatype System = System(process: HarnessOutput.State, queue: Queue)

  datatype Act =
    | Wrote(step: HarnessOutput.Step)  // the process writes to one of its outputs
    | Exited(exitCode: int)            // the process has ended
    | Broke(error: string)             // the process could not be run
    | Called                           // the consumer calls next
    | Continued(call: nat)             // the continuation of an answered call

  function Start(json: bool): System {
    System(HarnessOutput.Fresh(json), HarnessQueue.Start())
  }

  function PushAll(q: Queue, events: seq<Event>): Queue
    decreases events
  {
    if events == [] then q else PushAll(HarnessQueue.Take(q, HarnessQueue.Pushed(events[0])), events[1..])
  }

  /** What a handler added. */
  function Added(before: HarnessOutput.State, after: HarnessOutput.State): seq<Event> {
    if |before.events| <= |after.events| then after.events[|before.events|..] else []
  }

  function Take(parse: string -> HarnessOutput.Line, y: System, act: Act): System {
    var p, q := y.process, y.queue;
    match act
    case Wrote(step) =>
      var next := HarnessOutput.Take(parse, p, step);
      System(next, PushAll(q, Added(p, next)))
    case Exited(exitCode) =>
      var next := HarnessOutput.OnClose(parse, p, exitCode);
      var pushed := PushAll(q, Added(p, next));
      System(next, if p.settled then pushed else HarnessQueue.Take(pushed, HarnessQueue.Closed))
    case Broke(error) =>
      if p.settled then y
      else System(HarnessOutput.OnError(p), HarnessQueue.Take(q, HarnessQueue.Failed(error)))
    case Called => System(p, HarnessQueue.Take(q, HarnessQueue.Called))
    case Continued(call) => System(p, HarnessQueue.Take(q, HarnessQueue.Settled(call)))
  }

  function Run(parse: string -> HarnessOutput.Line, y: System, acts: seq<Act>): System
    decreases acts
  {
    if acts == [] then y else Run(parse, Take(parse, y, acts[0]), acts[1..])
  }

  // ---- The process adds events until it has settled

  /** Events are only added, and none once the process has settled. */
  predicate Grows(before: HarnessOutput.State, after: HarnessOutput.State) {
    before.events <= after.events && (before.settled ==> after.events == before.events)
  }

  lemma {:induction false} HandleAllGrows(
      parse: string -> HarnessOutput.Line, s: HarnessOutput.State, lines: seq<string>)
    ensures Grows(s, HarnessOutput.HandleAll(parse, s, lines))
    ensures HarnessOutput.HandleAll(parse, s, lines).settled == s.settled
    decreases lines
  {
    if lines != [] {
      HandleAllGrows(parse, HarnessOutput.Handle(parse, s, lines[0]), lines[1..]);
    }
  }

  lemma WriteGrows(parse: string -> HarnessOutput.Line, s: HarnessOutput.State, step: HarnessOutput.Step)
    ensures Grows(s, HarnessOutput.Take(parse, s, step)) && HarnessOutput.Take(parse, s, step).settled == s.settled
  {
    if step.Stdout? {
      var lines := HarnessOutput.Split(s.buffer + step.chunk);
      HandleAllGrows(parse, s.(buffer := HarnessOutput.Last(lines)), HarnessOutput.Init(lines));
      hide HarnessOutput.Split, HarnessOutput.HandleAll;
    }
  }

  lemma CloseGrows(parse: string -> HarnessOutput.Line, s: HarnessOutput.State, exitCode: int)
    ensures Grows(s, HarnessOutput.OnClose(parse, s, exitCode)) && HarnessOutput.OnClose(parse, s, exitCode).settled
  {
    hide HarnessOutput.Blank;
  }

  // ---- The queue accepts exactly the events of the process

  lemma {:induction false} PushAllKeeps(q: Queue, events: seq<Event>)
    requires HarnessQueue.Inv(q) && (q.state.closed ==> events == [])
    ensures var r := PushAll(q, events);
            && HarnessQueue.Inv(r) && r.accepted == q.accepted + events
            && r.state.closed == q.state.closed && r.state.failure == q.state.failure
    decreases events
  {
    if events != [] {
      hide HarnessQueue.Inv, HarnessQueue.Take;
      PushOne(q, events[0]);
      PushAllKeeps(HarnessQueue.Take(q, HarnessQueue.Pushed(events[0])), events[1..]);
      TakeFirst(q.accepted, events);
    }
  }

  lemma TakeFirst(accepted: seq<Event>, events: seq<Event>)
    requires events != []
    ensures accepted + [events[0]] + events[1..] == accepted + events
  {
  }

  lemma PushOne(q: Queue, e: Event)
    requires HarnessQueue.Inv(q) && !q.state.closed
    ensures var r := HarnessQueue.Take(q, HarnessQueue.Pushed(e));
            && HarnessQueue.Inv(r) && r.accepted == q.accepted + [e] && !r.state.closed
            && r.state.failure == q.state.failure
  {
    HarnessQueue.StepKeeps(q, HarnessQueue.Pushed(e));
    assert q.state.failure == None;
    hide HarnessQueue.Inv;
  }

  ghost predicate Linked(y: System) {
    && HarnessQueue.Inv(y.queue) && y.queue.accepted == y.process.events
    && y.queue.state.closed == y.process.settled
  }

  lemma StartLinked(json: bool)
    ensures Linked(Start(json))
  {
    HarnessQueue.EmptyHolds<Event>();
  }

  lemma EndsQueue(q: Queue, step: HarnessQueue.Step<Event>)
    requires HarnessQueue.Inv(q) && (step.Closed? || step.Failed?)
    ensures var r := HarnessQueue.Take(q, step);
            && HarnessQueue.Inv(r) && r.accepted == q.accepted && r.state.closed
            && (step.Closed? ==> r.state.failure == q.state.failure)
  {
    HarnessQueue.StepKeeps(q, step);
    var s := q.state;
    HarnessQueue.ReleasedMeans(s.(closed := true));
    if step.Failed? {
      HarnessQueue.ReleasedMeans(s.(failure := Some(step.error), closed := true));
    }
    hide HarnessQueue.Inv, HarnessQueue.Released;
  }

  lemma ReadsQueue(q: Queue, step: HarnessQueue.Step<Event>)
    requires HarnessQueue.Inv(q) && (step.Called? || step.Settled?)
    ensures var r := HarnessQueue.Take(q, step);
            && HarnessQueue.Inv(r) && r.accepted == q.accepted && r.state.closed == q.state.closed
            && r.state.failure == q.state.failure
  {
    HarnessQueue.StepKeeps(q, step);
    hide HarnessQueue.Inv;
  }

  /** Every act keeps the link, and a settled process leaves its events and the failure of the queue alone. */
  lemma ActKeeps(parse: string -> HarnessOutput.Line, y: System, act: Act)
    requires Linked(y)
    ensures Linked(Take(parse, y, act))
    ensures y.process.settled ==>
              var z := Take(parse, y, act);
              z.process.settled && z.process.events == y.process.events
              && z.queue.state.failure == y.queue.state.failure
  {
    hide HarnessQueue.Inv, HarnessQueue.Take, HarnessOutput.Take, HarnessOutput.OnClose, PushAll;
    var p, q := y.process, y.queue;
    match act
    case Wrote(step) =>
      WriteGrows(parse, p, step);
      PushAllKeeps(q, Added(p, HarnessOutput.Take(parse, p, step)));
    case Exited(exitCode) =>
      var next := HarnessOutput.OnClose(parse, p, exitCode);
      CloseGrows(parse, p, exitCode);
      PushAllKeeps(q, Added(p, next));
      EndsQueue(PushAll(q, Added(p, next)), HarnessQueue.Closed);
    case Broke(error) => EndsQueue(q, HarnessQueue.Failed(error));
    case Called => ReadsQueue(q, HarnessQueue.Called);
    case Continued(call) => ReadsQueue(q, HarnessQueue.Settled(call));
  }

  lemma {:induction false} RunLinked(parse: string -> HarnessOutput.Line, y: System, acts: seq<Act>)
    requires Linked(y)
    ensures Linked(Run(parse, y, acts))
    ensures y.process.settled ==>
              var z := Run(parse, y, acts);
              z.process.settled && z.process.events == y.process.events
              && z.queue.state.failure == y.queue.state.failure
    decreases acts
  {
    hide Linked, Take;
    if acts != [] {
      ActKeeps(parse, y, acts[0]);
      RunLinked(parse, Take(parse, y, acts[0]), acts[1..]);
    }
  }

  /**
   * On every interleaving of process and consumer: the k-th call gets the k-th event of the process, and a later
   * call waits until the process has settled.
   */
  lemma StreamIsSequence(parse: string -> HarnessOutput.Line, json: bool, acts: seq<Act>, k: nat)
    ensures var y := Run(parse, Start(json), acts);
            var s, events := y.queue.state, y.process.events;
            && (k < s.calls && k < |events| ==> HarnessQueue.Served(s, k, events[k]))
            && (|events| <= k < s.calls ==>
                  if y.process.settled then HarnessQueue.Ended(s, k) else HarnessQueue.Waiting(s, k))
  {
    StartLinked(json);
    RunLinked(parse, Start(json), acts);
    var y := Run(parse, Start(json), acts);
    hide Run, Start, HarnessQueue.Served, HarnessQueue.Ended, HarnessQueue.Waiting;
    assert HarnessQueue.CallOk(y.queue, k);
  }

  // ---- A process that runs to its end

  predicate Running(act: Act) {
    !act.Exited? && !act.Broke?
  }

  /** What the process writes. */
  function Writes(acts: seq<Act>): seq<HarnessOutput.Step> {
    if acts == [] then []
    else (if acts[0].Wrote? then [acts[0].step] else []) + Writes(acts[1..])
  }

  lemma {:induction false} RunningRun(parse: string -> HarnessOutput.Line, y: System, acts: seq<Act>)
    requires Linked(y) && !y.process.settled && y.queue.state.failure == None
    requires forall i :: 0 <= i < |acts| ==> Running(acts[i])
    ensures var z := Run(parse, y, acts);
            && z.process == HarnessOutput.Run(parse, y.process, Writes(acts))
            && !z.process.settled && z.queue.state.failure == None
    decreases acts
  {
    hide Linked;
    if acts != [] {
      var next := Take(parse, y, acts[0]);
      RunningAct(parse, y, acts[0]);
      ActKeeps(parse, y, acts[0]);
      hide Take;
      RunningRun(parse, next, acts[1..]);
      if acts[0].Wrote? {
        assert ([acts[0].step] + Writes(acts[1..]))[1..] == Writes(acts[1..]);
      } else {
        assert [] + Writes(acts[1..]) == Writes(acts[1..]);
      }
    }
  }

  lemma RunningAct(parse: string -> HarnessOutput.Line, y: System, act: Act)
    requires Linked(y) && !y.process.settled && y.queue.state.failure == None && Running(act)
    ensures var z := Take(parse, y, act);
            && z.process == (if act.Wrote? then HarnessOutput.Take(parse, y.process, act.step) else y.process)
            && !z.process.settled && z.queue.state.failure == None
  {
    hide HarnessQueue.Inv, HarnessQueue.Take, HarnessOutput.Take, PushAll;
    match act
    case Wrote(step) =>
      WriteGrows(parse, y.process, step);
      PushAllKeeps(y.queue, Added(y.process, HarnessOutput.Take(parse, y.process, step)));
    case Called => ReadsQueue(y.queue, HarnessQueue.Called);
    case Continued(call) => ReadsQueue(y.queue, HarnessQueue.Settled(call));
  }

  lemma ExitAct(parse: string -> HarnessOutput.Line, y: System, exitCode: int)
    requires Linked(y) && !y.process.settled && y.queue.state.failure == None
    ensures var z := Take(parse, y, Exited(exitCode));
            && z.process == HarnessOutput.OnClose(parse, y.process, exitCode)
            && z.process.settled && z.queue.state.failure == None
  {
    hide HarnessQueue.Inv, HarnessQueue.Take, HarnessOutput.OnClose, PushAll;
    var next := HarnessOutput.OnClose(parse, y.process, exitCode);
    CloseGrows(parse, y.process, exitCode);
    PushAllKeeps(y.queue, Added(y.process, next));
    EndsQueue(PushAll(y.queue, Added(y.process, next)), HarnessQueue.Closed);
  }

  lemma {:induction false} RunConcat(parse: string -> HarnessOutput.Line, y: System, a: seq<Act>, b: seq<Act>)
    ensures Run(parse, y, a + b) == Run(parse, Run(parse, y, a), b)
    decreases a
  {
    if a == [] {
      assert a + b == b;
    } else {
      assert (a + b)[1..] == a[1..] + b && (a + b)[0] == a[0];
      hide Take;
      RunConcat(parse, Take(parse, y, a[0]), a[1..], b);
    }
  }

  /**
   * A consumer of a process that ends gets, whatever the interleaving and whatever comes after the end, exactly the
   * events of that run of the process in order, and then the end; nothing is thrown.
   */
  lemma ConsumerGetsRun(
      parse: string -> HarnessOutput.Line, json: bool, acts: seq<Act>, exitCode: int, late: seq<Act>, k: nat)
    requires forall i :: 0 <= i < |acts| ==> Running(acts[i])
    ensures var y := Run(parse, Start(json), acts + [Exited(exitCode)] + late);
            var ended := HarnessOutput.Run(parse, HarnessOutput.Fresh(json), Writes(acts));
            var events := HarnessOutput.OnClose(parse, ended, exitCode).events;
            var s := y.queue.state;
            && (k < s.calls && k < |events| ==> HarnessQueue.Served(s, k, events[k]))
            && (|events| <= k < s.calls ==>
                  if k in s.resolved then s.resolved[k] == None && k !in s.results
                  else k in s.results && s.results[k] == HarnessQueue.End)
            && s.failure == None
  {
    StartLinked(json);
    var y0 := Start(json);
    assert y0.process == HarnessOutput.Fresh(json) && !y0.process.settled && y0.queue.state.failure == None;
    var y1, exit := Run(parse, y0, acts), [Exited(exitCode)];
    RunningRun(parse, y0, acts);
    RunLinked(parse, y0, acts);
    var y2 := Take(parse, y1, Exited(exitCode));
    ExitAct(parse, y1, exitCode);
    ActKeeps(parse, y1, Exited(exitCode));
    RunLinked(parse, y2, late);
    RunConcat(parse, y0, acts + exit, late);
    RunConcat(parse, y0, acts, exit);
    assert exit[1..] == [];
    assert Run(parse, y1, exit) == Run(parse, y2, []) == y2;
    hide Take, Linked, HarnessOutput.OnClose, HarnessOutput.Run, HarnessQueue.Served, HarnessQueue.Waiting;
    StreamIsSequence(parse, json, acts + exit + late, k);
    hide Run, Start;
  }

  /** A process that could not be run fails the queue; what it had written before is still delivered. */
  lemma BrokenFails(parse: string -> HarnessOutput.Line, y: System, error: string)
    requires Linked(y) && !y.process.settled
    ensures var z := Take(parse, y, Broke(error));
            && z.process.settled && z.process.events == y.process.events
            && z.queue.state.closed && z.queue.state.failure == Some(error)
            && z.queue.accepted == y.queue.accepted
  {
    HarnessQueue.EndsMean(y.queue, error);
    hide HarnessQueue.Inv;
  }
}
