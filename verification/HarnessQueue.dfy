/**
 * The event queue between a running agent process and the consumer that iterates over its events
 * (packages/local-agent/src/harness/codex-harness.adapter.ts, lines 552 to 617).
 * A call of `next` is known by its number; a call that waits is answered in two steps, by the
 * producer and by the continuation that reads the failure afterwards.
 */
module HarnessQueue {
  import opened Common

  /** What a call of `next` gives: an event, the end, or a thrown failure. */
  datatype Delivery<E> = Value(event: E) | End | Thrown(error: string)

  datatype State<E> = State(
    values: seq<E>, waiters: seq<nat>, closed: bool, failure: Option<string>,
    calls: nat,                      // how many times next was called
    resolved: map<nat, Option<E>>,   // waiting calls that a producer has answered
    results: map<nat, Delivery<E>>)  // finished calls

  function Empty<E>(): State<E> {
    State([], [], false, None, 0, map[], map[])
  }

  function Push<E>(s: State<E>, e: E): State<E> {
    if s.closed || s.failure.Some? then s
    else if s.waiters != [] then s.(waiters := s.waiters[1..], resolved := s.resolved[s.waiters[0] := Some(e)])
    else s.(values := s.values + [e])
  }

  /** All waiting calls are answered with the end. */
  function Released<E>(s: State<E>): State<E>
    decreases |s.waiters|
  {
    if s.waiters == [] then s
    else Released(s.(waiters := s.waiters[1..], resolved := s.resolved[s.waiters[0] := None]))
  }

  function Close<E>(s: State<E>): State<E> {
    Released(s.(closed := true))
  }

  function Fail<E>(s: State<E>, error: string): State<E> {
    Released(s.(failure := Some(error), closed := true))
  }

  function Ending<E>(s: State<E>): Delivery<E> {
    if s.failure.Some? then Thrown(s.failure.value) else End
  }

  function Next<E>(s: State<E>): State<E> {
    var t := s.(calls := s.calls + 1);
    if s.values != [] then t.(values := s.values[1..], results := s.results[s.calls := Value(s.values[0])])
    else if s.failure.Some? || s.closed then t.(results := s.results[s.calls := Ending(s)])
    else t.(waiters := s.waiters + [s.calls])
  }

  /** The continuation of an answered call. */
  function Settle<E>(s: State<E>, call: nat): State<E> {
    if call !in s.resolved then s
    else
      var d := if s.resolved[call].Some? then Value(s.resolved[call].value) else Ending(s);
      s.(resolved := s.resolved - {call}, results := s.results[call := d])
  }

  class AgentHarnessEventQueue<E> {
    var values: seq<E>
    var waiters: seq<nat>
    var closed: bool
    var failure: Option<string>
    var calls: nat
    var resolved: map<nat, Option<E>>
    var results: map<nat, Delivery<E>>

    function View(): State<E>
      reads this
    {
      State(values, waiters, closed, failure, calls, resolved, results)
    }

    constructor ()
      ensures View() == Empty()
    {
      values, waiters, closed, failure, calls, resolved, results := [], [], false, None, 0, map[], map[];
    }

    method PushEvent(e: E)
      modifies this
      ensures View() == Push(old(View()), e)
    {
      if closed || failure.Some? {
        return;
      }
      if waiters != [] {
        resolved := resolved[waiters[0] := Some(e)];
        waiters := waiters[1..];
        return;
      }
      values := values + [e];
    }

    method ReleaseWaiters()
      modifies this
      ensures View() == Released(old(View()))
    {
      while waiters != []
        invariant Released(View()) == Released(old(View()))
        decreases |waiters|
      {
        resolved := resolved[waiters[0] := None];
        waiters := waiters[1..];
      }
    }

    method CloseQueue()
      modifies this
      ensures View() == Close(old(View()))
    {
      closed := true;
      ReleaseWaiters();
    }

    method FailQueue(error: string)
      modifies this
      ensures View() == Fail(old(View()), error)
    {
      failure := Some(error);
      closed := true;
      ReleaseWaiters();
    }

    method NextEvent()
      modifies this
      ensures View() == Next(old(View()))
    {
      var call := calls;
      calls := calls + 1;
      if |values| > 0 {
        results := results[call := Value(values[0])];
        values := values[1..];
      } else if failure.Some? {
        results := results[call := Thrown(failure.value)];
      } else if closed {
        results := results[call := End];
      } else {
        waiters := waiters + [call];
      }
    }

    method SettleCall(call: nat)
      modifies this
      ensures View() == Settle(old(View()), call)
    {
      if call in resolved {
        var answer := resolved[call];
        resolved := resolved - {call};
        results := results[call := if answer.Some? then Value(answer.value) else Ending(View())];
      }
    }
  }

  // ---- Runs

  datatype Step<E> = Pushed(event: E) | Closed | Failed(error: string) | Called | Settled(call: nat)

  /** The queue, and the events that it has accepted. */
  datatype World<E> = World(state: State<E>, accepted: seq<E>)

  function Take<E>(w: World<E>, step: Step<E>): World<E> {
    match step
    case Pushed(e) =>
      World(Push(w.state, e), if w.state.closed || w.state.failure.Some? then w.accepted else w.accepted + [e])
    case Closed => w.(state := Close(w.state))
    case Failed(error) => w.(state := Fail(w.state, error))
    case Called => w.(state := Next(w.state))
    case Settled(call) => w.(state := Settle(w.state, call))
  }

  function Run<E>(w: World<E>, steps: seq<Step<E>>): World<E>
    decreases steps
  {
    if steps == [] then w else Run(Take(w, steps[0]), steps[1..])
  }

  /** Call `k` has got, or will get from its continuation, the k-th accepted event. */
  predicate Served<E(==)>(s: State<E>, k: nat, e: E) {
    if k in s.resolved then s.resolved[k] == Some(e) && k !in s.results
    else k in s.results && s.results[k] == Value(e)
  }

  /** Call `k` has got, or will get, the end or a failure. */
  predicate Ended<E(==)>(s: State<E>, k: nat) {
    if k in s.resolved then s.resolved[k] == None && k !in s.results
    else k in s.results && (s.results[k].End? || (s.results[k].Thrown? && s.failure.Some?))
  }

  predicate Waiting<E>(s: State<E>, k: nat) {
    k !in s.resolved && k !in s.results
  }

  function Range(from: nat, to: nat): (r: seq<nat>)
    ensures from <= to ==> |r| == to - from
    ensures forall i :: 0 <= i < |r| ==> r[i] == from + i
  {
    if to <= from then [] else seq(to - from, i requires 0 <= i => from + i)
  }

  /** What call number `k` has got so far. */
  predicate CallOk<E(==)>(w: World<E>, k: nat) {
    if k >= w.state.calls then Waiting(w.state, k)
    else if k < |w.accepted| then Served(w.state, k, w.accepted[k])
    else if w.state.closed then Ended(w.state, k) else Waiting(w.state, k)
  }

  ghost predicate Inv<E>(w: World<E>) {
    var s, a := w.state, |w.accepted|;
    && (s.failure.Some? ==> s.closed)
    && (if s.calls <= a then s.values == w.accepted[s.calls..] else s.values == [])
    && s.waiters == (if s.closed then [] else Range(a, s.calls))
    && (forall k: nat :: CallOk(w, k))
  }

  lemma EmptyHolds<E>()
    ensures Inv(World(Empty<E>(), []))
  {
  }

  lemma {:induction false} ReleasedMeans<E>(s: State<E>)
    ensures var t := Released(s);
            && t == s.(waiters := [], resolved := t.resolved)
            && (forall k :: k in t.resolved <==> k in s.resolved || k in s.waiters)
            && (forall k :: k in t.resolved ==> t.resolved[k] == if k in s.waiters then None else s.resolved[k])
    decreases |s.waiters|
  {
    if s.waiters != [] {
      var next := s.(waiters := s.waiters[1..], resolved := s.resolved[s.waiters[0] := None]);
      ReleasedMeans(next);
      assert s.waiters == [s.waiters[0]] + s.waiters[1..];
      hide Released;
    }
  }

  lemma RangeMembers(from: nat, to: nat)
    ensures forall k: nat :: k in Range(from, to) <==> from <= k < to
  {
    forall k: nat | from <= k < to
      ensures k in Range(from, to)
    {
      assert Range(from, to)[k - from] == k;
    }
  }

  lemma RangeFirst(from: nat, to: nat)
    requires from < to
    ensures Range(from, to) == [from] + Range(from + 1, to)
  {
  }

  lemma RangeLast(from: nat, to: nat)
    requires from <= to
    ensures Range(from, to + 1) == Range(from, to) + [to]
  {
  }

  lemma ReleaseKeeps<E>(w: World<E>, s: State<E>)
    requires Inv(w) && s.closed && s == w.state.(closed := true, failure := s.failure)
    requires s.failure == w.state.failure || s.failure.Some?
    ensures Inv(w.(state := Released(s)))
  {
    ReleasedMeans(s);
    RangeMembers(|w.accepted|, s.calls);
    hide Released, Range;
    forall k: nat
      ensures CallOk(w.(state := Released(s)), k)
    {
      assert CallOk(w, k);
    }
  }

  lemma PushKeeps<E>(w: World<E>, e: E)
    requires Inv(w)
    ensures Inv(Take(w, Pushed(e)))
  {
    var s, a := w.state, |w.accepted|;
    if a < s.calls {
      RangeFirst(a, s.calls);
    }
    assert s.calls <= a && !s.closed ==> s.waiters == [];
    hide Range;
    forall k: nat
      ensures CallOk(Take(w, Pushed(e)), k)
    {
      assert CallOk(w, k);
    }
  }

  lemma NextKeeps<E>(w: World<E>)
    requires Inv(w)
    ensures Inv(Take(w, Called))
  {
    if |w.accepted| <= w.state.calls {
      RangeLast(|w.accepted|, w.state.calls);
    }
    hide Range;
    forall k: nat
      ensures CallOk(Take(w, Called), k)
    {
      assert CallOk(w, k);
    }
  }

  lemma SettleKeeps<E>(w: World<E>, call: nat)
    requires Inv(w)
    ensures Inv(Take(w, Settled(call)))
  {
    hide Range;
    forall k: nat
      ensures CallOk(Take(w, Settled(call)), k)
    {
      assert CallOk(w, k);
    }
  }

  lemma StepKeeps<E>(w: World<E>, step: Step<E>)
    requires Inv(w)
    ensures Inv(Take(w, step))
  {
    var s := w.state;
    match step
    case Closed => ReleaseKeeps(w, s.(closed := true)); hide Inv;
    case Failed(error) => ReleaseKeeps(w, s.(failure := Some(error), closed := true)); hide Inv;
    case Pushed(e) => hide Inv, Take; PushKeeps(w, e);
    case Called => hide Inv, Take; NextKeeps(w);
    case Settled(call) => hide Inv, Take; SettleKeeps(w, call);
  }

  /** The invariant holds at every point of a run. */
  lemma {:induction false} RunKeeps<E>(w: World<E>, steps: seq<Step<E>>)
    requires Inv(w)
    ensures forall n :: 0 <= n <= |steps| ==> Inv(Run(w, steps[..n]))
    decreases steps
  {
    hide Inv, Take;
    if steps != [] {
      StepKeeps(w, steps[0]);
      RunKeeps(Take(w, steps[0]), steps[1..]);
    }
    forall n | 0 <= n <= |steps|
      ensures Inv(Run(w, steps[..n]))
    {
      assert n > 0 ==> steps[..n][1..] == steps[1..][..n - 1];
    }
  }

  function Start<E>(): World<E> {
    World(Empty(), [])
  }

  /**
   * On every run the k-th call of next gets the k-th accepted event; a call beyond the accepted events waits
   * until the queue is closed and then gets the end or a failure. Buffered events are the accepted
   * ones not yet called for, and they never meet a waiting call.
   */
  lemma QueueIsSequence<E>(steps: seq<Step<E>>, k: nat)
    ensures var w := Run(Start<E>(), steps);
            var s := w.state;
            && (s.values == [] || s.waiters == [])
            && s.values == w.accepted[if s.calls <= |w.accepted| then s.calls else |w.accepted|..]
            && (k < s.calls && k < |w.accepted| ==> Served(s, k, w.accepted[k]))
            && (|w.accepted| <= k < s.calls ==> if s.closed then Ended(s, k) else Waiting(s, k))
  {
    EmptyHolds<E>();
    RunKeeps(Start<E>(), steps);
    assert steps[..|steps|] == steps;
    hide Run;
    assert CallOk(Run(Start<E>(), steps), k);
  }

  /** A finished call keeps its result. */
  lemma {:induction false} ResultsStay<E>(w: World<E>, steps: seq<Step<E>>, k: nat)
    requires Inv(w) && k in w.state.results
    ensures k in Run(w, steps).state.results && Run(w, steps).state.results[k] == w.state.results[k]
    decreases steps
  {
    if steps != [] {
      StepKeeps(w, steps[0]);
      ResultStays(w, steps[0], k);
      hide Inv, Take;
      ResultsStay(Take(w, steps[0]), steps[1..], k);
    }
  }

  lemma ResultStays<E>(w: World<E>, step: Step<E>, k: nat)
    requires Inv(w) && k in w.state.results
    ensures k in Take(w, step).state.results && Take(w, step).state.results[k] == w.state.results[k]
  {
    hide Range;
    assert CallOk(w, k);
    assert CallOk(w, w.state.calls);
    match step
    case Closed => ReleasedMeans(w.state.(closed := true));
    case Failed(error) => ReleasedMeans(w.state.(failure := Some(error), closed := true));
    case _ =>
  }

  /** A waiting call that the close has answered still throws when the failure comes before its continuation. */
  lemma FailureOvertakesClose<E>(w: World<E>, k: nat, error: string)
    requires Inv(w) && k in w.state.waiters
    ensures var late := Take(Take(Take(w, Closed), Failed(error)), Settled(k));
            k in late.state.results && late.state.results[k] == Thrown(error)
    ensures var soon := Take(Take(Take(w, Closed), Settled(k)), Failed(error));
            k in soon.state.results && soon.state.results[k] == End
  {
    var closed := Take(w, Closed).state;
    ReleasedMeans(w.state.(closed := true));
    ReleasedMeans(closed.(failure := Some(error), closed := true));
    ReleasedMeans(Settle(closed, k).(failure := Some(error), closed := true));
    assert !w.state.closed;
    hide Released;
  }

  // ---- What each step does

  /** A call is numbered; it gets the event of its number if that was accepted, the failure, the end, or waits. */
  lemma CallMeans<E>(w: World<E>)
    requires Inv(w)
    ensures var t, k := Take(w, Called), w.state.calls;
            && t.accepted == w.accepted && t.state.calls == k + 1
            && t.state.closed == w.state.closed && t.state.failure == w.state.failure
            && t.state.resolved == w.state.resolved
            && (k < |w.accepted| ==> t.state.results == w.state.results[k := Value(w.accepted[k])])
            && (k >= |w.accepted| && w.state.failure.Some? ==>
                  t.state.results == w.state.results[k := Thrown(w.state.failure.value)])
            && (k >= |w.accepted| && w.state.failure.None? && w.state.closed ==>
                  t.state.results == w.state.results[k := End])
            && (k >= |w.accepted| && !w.state.closed ==>
                  t.state.results == w.state.results && t.state.waiters == w.state.waiters + [k])
  {
    hide CallOk, Range;
  }

  /** A push is accepted exactly while the queue is open; the first waiting call gets it, or it is buffered. */
  lemma PushMeans<E>(w: World<E>, e: E)
    requires Inv(w)
    ensures var t := Take(w, Pushed(e));
            && t.accepted == (if w.state.closed then w.accepted else w.accepted + [e])
            && t.state.calls == w.state.calls && t.state.results == w.state.results
            && (!w.state.closed && w.state.waiters != [] ==>
                  && t.state.resolved == w.state.resolved[w.state.waiters[0] := Some(e)]
                  && t.state.waiters == w.state.waiters[1..] && t.state.values == w.state.values)
            && (!w.state.closed && w.state.waiters == [] ==> t.state.values == w.state.values + [e])
  {
    hide CallOk, Range;
  }

  /** The continuation of an answered call finishes it with its event, or with the failure or the end. */
  lemma ContinuationMeans<E>(w: World<E>, k: nat)
    ensures var t := Take(w, Settled(k));
            if k in w.state.resolved then
              && k !in t.state.resolved && k in t.state.results
              && t.state.results[k] == (if w.state.resolved[k].Some? then Value(w.state.resolved[k].value)
                                        else if w.state.failure.Some? then Thrown(w.state.failure.value) else End)
              && t.accepted == w.accepted && t.state.calls == w.state.calls
            else t == w
  {
  }

  /** Closing and failing close the queue and answer every waiting call with the end; a failure is kept. */
  lemma EndsMean<E>(w: World<E>, error: string)
    requires Inv(w)
    ensures var t := Take(w, Closed);
            && t.state.closed && t.state.failure == w.state.failure && t.state.waiters == []
            && t.accepted == w.accepted && t.state.results == w.state.results
            && forall k :: k in w.state.waiters ==> k in t.state.resolved && t.state.resolved[k] == None
    ensures var t := Take(w, Failed(error));
            && t.state.closed && t.state.failure == Some(error) && t.state.waiters == []
            && t.accepted == w.accepted && t.state.results == w.state.results
            && forall k :: k in w.state.waiters ==> k in t.state.resolved && t.state.resolved[k] == None
  {
    ReleasedMeans(w.state.(closed := true));
    ReleasedMeans(w.state.(failure := Some(error), closed := true));
    hide Released, Inv;
  }
}
