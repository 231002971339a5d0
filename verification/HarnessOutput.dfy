/**
 * From the output of an agent process to its events: standard output arrives in arbitrary chunks,
 * is cut into lines, and each line may be a message of the agent
 * (packages/local-agent/src/harness/codex-harness.adapter.ts, lines 64 to 152).
 * Reading a line as JSON is a parameter.
 */
module HarnessOutput {
  import opened Common

  datatype Line = Thread(id: string) | Message(text: string) | Failure(message: string) | Ignored

  datatype Kind = Progress | Final

  datatype Event =
    | Output(kind: Kind, text: string)
    | Raw(text: string)
    | ErrorOutput(text: string)
    | Done(exitCode: int)

  predicate IsSpace(c: char) {
    || c == ' ' || '\t' <= c <= '\r' || c == '\U{A0}' || c == '\U{1680}' || '\U{2000}' <= c <= '\U{200A}'
    || c == '\U{2028}' || c == '\U{2029}' || c == '\U{202F}' || c == '\U{205F}' || c == '\U{3000}' || c == '\U{FEFF}'
  }

  predicate Blank(s: string) {
    forall i :: 0 <= i < |s| ==> IsSpace(s[i])
  }

  function TrimStart(s: string): string {
    if s != [] && IsSpace(s[0]) then TrimStart(s[1..]) else s
  }

  function TrimEnd(s: string): string {
    if s != [] && IsSpace(s[|s| - 1]) then TrimEnd(s[..|s| - 1]) else s
  }

  function Trim(s: string): string {
    TrimEnd(TrimStart(s))
  }

  // ---- Cutting text into lines

  /** The pieces between the newlines. */
  function Split(s: string): (r: seq<string>)
    ensures r != []
  {
    if s == [] then [""]
    else
      var rest := Split(s[1..]);
      if s[0] == '\n' then [""] + rest else [[s[0]] + rest[0]] + rest[1..]
  }

  function Join(lines: seq<string>): string
    requires lines != []
  {
    if |lines| == 1 then lines[0] else lines[0] + "\n" + Join(lines[1..])
  }

  /** Cutting into lines loses nothing, and no line holds a newline. */
  lemma {:induction false} SplitJoins(s: string)
    ensures Join(Split(s)) == s
    ensures forall i :: 0 <= i < |Split(s)| ==> '\n' !in Split(s)[i]
  {
    if s != [] {
      SplitJoins(s[1..]);
      var rest := Split(s[1..]);
      if s[0] == '\n' {
        assert ([""] + rest)[1..] == rest;
        assert Join([""] + rest) == "" + "\n" + s[1..];
      } else {
        var lines := [[s[0]] + rest[0]] + rest[1..];
        assert lines[1..] == rest[1..];
        assert Join(lines) == [s[0]] + Join(rest);
      }
      assert s == [s[0]] + s[1..];
    }
  }

  function Init(lines: seq<string>): seq<string>
    requires lines != []
  {
    lines[..|lines| - 1]
  }

  function Last(lines: seq<string>): string
    requires lines != []
  {
    lines[|lines| - 1]
  }

  /** The unfinished line goes on with the next chunk. */
  lemma {:induction false} SplitConcat(a: string, b: string)
    ensures Split(a + b) == Init(Split(a)) + Split(Last(Split(a)) + b)
  {
    if a == [] {
      assert a + b == b;
    } else {
      SplitConcat(a[1..], b);
      assert (a + b)[1..] == a[1..] + b && (a + b)[0] == a[0];
      var rest, whole := Split(a[1..]), Split(a[1..] + b);
      assert Split(a) == if a[0] == '\n' then [""] + rest else [[a[0]] + rest[0]] + rest[1..];
      assert Split(a + b) == if a[0] == '\n' then [""] + whole else [[a[0]] + whole[0]] + whole[1..];
      hide Split;
      if a[0] == '\n' {
        SplitNewline(rest, b);
      } else {
        SplitHead(a[0], rest, b);
      }
    }
  }

  lemma SplitNewline(rest: seq<string>, b: string)
    requires rest != []
    ensures var lines := [""] + rest;
            [""] + (Init(rest) + Split(Last(rest) + b)) == Init(lines) + Split(Last(lines) + b)
  {
    hide Split;
    assert Init([""] + rest) == [""] + Init(rest) && Last([""] + rest) == Last(rest);
  }

  /** One more character in front of the first line. */
  lemma SplitHead(c: char, rest: seq<string>, b: string)
    requires rest != [] && c != '\n'
    ensures var lines := [[c] + rest[0]] + rest[1..];
            var tail := Init(rest) + Split(Last(rest) + b);
            [[c] + tail[0]] + tail[1..] == Init(lines) + Split(Last(lines) + b)
  {
    var lines := [[c] + rest[0]] + rest[1..];
    if |rest| == 1 {
      assert Last(lines) + b == [c] + (Last(rest) + b);
      assert ([c] + (Last(rest) + b))[1..] == Last(rest) + b;
      assert Init(lines) == [] && Init(rest) == [];
    } else {
      assert Last(lines) == Last(rest);
      assert Init(lines) == [[c] + rest[0]] + rest[1..|rest| - 1];
      assert Init(rest) == [rest[0]] + rest[1..|rest| - 1];
    }
  }

  // ---- One run of the process

  datatype State = State(
    json: bool, buffer: string, pending: Option<string>, settled: bool,
    events: seq<Event>,
    handled: seq<string>)  // the lines read so far

  function Fresh(json: bool): State {
    State(json, "", None, false, [], [])
  }

  /** An event is dropped once the queue is closed. */
  function Push(s: State, e: Event): State {
    if s.settled then s else s.(events := s.events + [e])
  }

  function Handle(parse: string -> Line, s: State, line: string): State {
    var t := s.(handled := s.handled + [line]);
    match parse(line)
    case Message(text) => Push(t, Output(Progress, text)).(pending := Some(text))
    case Failure(message) => Push(t, ErrorOutput("ERROR: " + message))
    case _ => t
  }

  function HandleAll(parse: string -> Line, s: State, lines: seq<string>): State
    decreases lines
  {
    if lines == [] then s else HandleAll(parse, Handle(parse, s, lines[0]), lines[1..])
  }

  function OnStdout(parse: string -> Line, s: State, chunk: string): State {
    if !s.json then Push(s, Raw(chunk))
    else
      var lines := Split(s.buffer + chunk);
      HandleAll(parse, s.(buffer := Last(lines)), Init(lines))
  }

  function OnStderr(s: State, chunk: string): State {
    Push(s, ErrorOutput(chunk))
  }

  function Finish(s: State, exitCode: int): State {
    if s.settled then s
    else
      var t := if s.json && s.pending.Some? && s.pending.value != ""
               then s.(events := s.events + [Output(if exitCode == 0 then Final else Progress, s.pending.value)],
                       pending := None)
               else s;
      t.(events := t.events + [Done(exitCode)], settled := true)
  }

  function OnClose(parse: string -> Line, s: State, exitCode: int): State {
    var t := if s.json && !Blank(s.buffer) then Handle(parse, s, s.buffer) else s;
    Finish(t, exitCode)
  }

  function OnError(s: State): State {
    s.(settled := true)
  }

  class CodexRun {
    var json: bool
    var buffer: string
    var pending: Option<string>
    var settled: bool
    var events: seq<Event>
    var handled: seq<string>

    function View(): State
      reads this
    {
      State(json, buffer, pending, settled, events, handled)
    }

    constructor (json: bool)
      ensures View() == Fresh(json)
    {
      this.json, buffer, pending, settled, events, handled := json, "", None, false, [], [];
    }

    method PushEvent(e: Event)
      modifies this`events
      ensures View() == Push(old(View()), e)
    {
      if !settled {
        events := events + [e];
      }
    }

    method HandleLine(parse: string -> Line, line: string)
      modifies this
      ensures View() == Handle(parse, old(View()), line)
    {
      handled := handled + [line];
      match parse(line)
      case Message(text) =>
        PushEvent(Output(Progress, text));
        pending := Some(text);
      case Failure(message) => PushEvent(ErrorOutput("ERROR: " + message));
      case _ =>
    }

    method Stdout(parse: string -> Line, chunk: string)
      modifies this
      ensures View() == OnStdout(parse, old(View()), chunk)
    {
      if !json {
        PushEvent(Raw(chunk));
        return;
      }
      buffer := buffer + chunk;
      var pieces := Split(buffer);
      buffer := Last(pieces);
      ghost var start := old(View());
      assert pieces[0..|pieces| - 1] == Init(pieces);
      hide Split;
      for n := 0 to |pieces| - 1
        invariant HandleAll(parse, View(), pieces[n..|pieces| - 1])
                  == HandleAll(parse, start.(buffer := Last(pieces)), Init(pieces))
      {
        assert pieces[n..|pieces| - 1][1..] == pieces[n + 1..|pieces| - 1];
        HandleLine(parse, pieces[n]);
      }
    }

    method Stderr(chunk: string)
      modifies this`events
      ensures View() == OnStderr(old(View()), chunk)
    {
      PushEvent(ErrorOutput(chunk));
    }

    method Close(parse: string -> Line, exitCode: int)
      modifies this
      ensures View() == OnClose(parse, old(View()), exitCode)
    {
      if json && !Blank(buffer) {
        HandleLine(parse, buffer);
      }
      if settled {
        return;
      }
      if json && pending.Some? && pending.value != "" {
        PushEvent(Output(if exitCode == 0 then Final else Progress, pending.value));
        pending := None;
      }
      PushEvent(Done(exitCode));
      settled := true;
    }

    method Failed()
      modifies this`settled
      ensures View() == OnError(old(View()))
    {
      settled := true;
    }
  }

  // ---- Runs

  datatype Step = Stdout(chunk: string) | Stderr(chunk: string)

  function Take(parse: string -> Line, s: State, step: Step): State {
    match step
    case Stdout(chunk) => OnStdout(parse, s, chunk)
    case Stderr(chunk) => OnStderr(s, chunk)
  }

  function Run(parse: string -> Line, s: State, steps: seq<Step>): State
    decreases steps
  {
    if steps == [] then s else Run(parse, Take(parse, s, steps[0]), steps[1..])
  }

  /** All of standard output. */
  function Written(steps: seq<Step>): string {
    if steps == [] then [] else (if steps[0].Stdout? then steps[0].chunk else []) + Written(steps[1..])
  }

  lemma {:induction false} HandleAllFrame(parse: string -> Line, s: State, lines: seq<string>)
    ensures var t := HandleAll(parse, s, lines);
            t == s.(handled := s.handled + lines, pending := t.pending, events := t.events)
    decreases lines
  {
    if lines != [] {
      HandleAllFrame(parse, Handle(parse, s, lines[0]), lines[1..]);
      assert lines == [lines[0]] + lines[1..];
      hide HandleAll;
    }
  }

  /** What has been read and what is left in the buffer, as a cut of the text so far. */
  predicate CutOf(s: State, text: string) {
    s.handled == Init(Split(text)) && s.buffer == Last(Split(text))
  }

  lemma StdoutCuts(parse: string -> Line, s: State, text: string, chunk: string)
    requires s.json && CutOf(s, text)
    ensures CutOf(OnStdout(parse, s, chunk), text + chunk)
  {
    var lines := Split(s.buffer + chunk);
    SplitConcat(text, chunk);
    HandleAllFrame(parse, s.(buffer := Last(lines)), Init(lines));
    hide Split, HandleAll;
    var whole := Split(text + chunk);
    assert whole == s.handled + lines;
    assert Init(whole) == s.handled + Init(lines) && Last(whole) == Last(lines);
  }

  lemma {:induction false} RunCuts(parse: string -> Line, s: State, steps: seq<Step>, text: string)
    requires s.json && CutOf(s, text)
    ensures Run(parse, s, steps).json && CutOf(Run(parse, s, steps), text + Written(steps))
    ensures Run(parse, s, steps).settled == s.settled
    decreases steps
  {
    if steps == [] {
      assert text + [] == text;
    } else {
      match steps[0] {
        case Stdout(chunk) =>
          StdoutCuts(parse, s, text, chunk);
          var lines := Split(s.buffer + chunk);
          HandleAllFrame(parse, s.(buffer := Last(lines)), Init(lines));
        case Stderr(chunk) =>
          assert text + [] == text;
      }
      hide CutOf, Split, HandleAll;
      var now := if steps[0].Stdout? then steps[0].chunk else [];
      var next := Take(parse, s, steps[0]);
      RunCuts(parse, next, steps[1..], text + now);
      assert Written(steps) == now + Written(steps[1..]);
      assert Run(parse, s, steps) == Run(parse, next, steps[1..]);
      hide *;
      Assoc(text, now, Written(steps[1..]));
    }
  }

  /** The lines of the whole text, except a blank unfinished one. */
  function LinesOf(text: string): seq<string> {
    if Blank(Last(Split(text))) then Init(Split(text)) else Split(text)
  }

  lemma InitLast(lines: seq<string>)
    requires lines != []
    ensures lines == Init(lines) + [Last(lines)]
  {
  }

  /** Closing after the whole text. */
  lemma CloseHandles(parse: string -> Line, s: State, text: string, exitCode: int)
    requires s.json && CutOf(s, text)
    ensures OnClose(parse, s, exitCode).handled == LinesOf(text)
  {
    InitLast(Split(text));
    hide Split, Blank, Init, Last;
  }

  lemma NothingRead(s: State)
    requires s.handled == [] && s.buffer == []
    ensures CutOf(s, [])
  {
  }

  /** However the output is cut into chunks and mixed with error output, the lines read are those of the whole text. */
  lemma LinesOfWhole(parse: string -> Line, steps: seq<Step>, exitCode: int)
    ensures var s := Run(parse, Fresh(true), steps);
            OnClose(parse, s, exitCode).handled == LinesOf(Written(steps))
  {
    var s := Fresh(true);
    NothingRead(s);
    hide CutOf, Run, OnClose, LinesOf, Written;
    RunCuts(parse, s, steps, []);
    assert [] + Written(steps) == Written(steps);
    CloseHandles(parse, Run(parse, s, steps), Written(steps), exitCode);
  }

  // ---- The events of a run

  function TextOf(parse: string -> Line, line: string): seq<string> {
    if parse(line).Message? then [parse(line).text] else []
  }

  /** The agent's messages, in order. */
  function Messages(parse: string -> Line, lines: seq<string>): seq<string> {
    FlatMap(line => TextOf(parse, line), lines)
  }

  function Outputs(events: seq<Event>): seq<Event> {
    Filter((e: Event) => e.Output?, events)
  }

  function AsProgress(messages: seq<string>): seq<Event> {
    Map(m => Output(Progress, m), messages)
  }

  /** A parsed message is never empty. */
  ghost predicate NoEmptyMessage(parse: string -> Line) {
    forall line :: parse(line).Message? ==> parse(line).text != ""
  }

  /** Only error output follows event `i`. */
  predicate ErrorsAfter(events: seq<Event>, i: int) {
    forall j :: 0 <= i < j < |events| ==> events[j].ErrorOutput?
  }

  /** Message `m` was reported, and only errors were reported since. */
  predicate LastReported(events: seq<Event>, m: string) {
    exists i :: 0 <= i < |events| && events[i] == Output(Progress, m) && ErrorsAfter(events, i)
  }

  /** The pending message is the last one, was reported, and only errors were reported since. */
  predicate Tail(s: State, messages: seq<string>) {
    && (s.pending.None? <==> messages == [])
    && (s.pending.Some? ==>
         && s.pending.value == messages[|messages| - 1] && s.pending.value != ""
         && LastReported(s.events, s.pending.value))
  }

  /** What is reported before the end: progress and errors. */
  predicate IsLive(e: Event) {
    e.ErrorOutput? || (e.Output? && e.kind == Progress)
  }

  predicate Recorded(parse: string -> Line, s: State) {
    var messages := Messages(parse, s.handled);
    && s.json && !s.settled && Outputs(s.events) == AsProgress(messages) && Tail(s, messages)
    && AllLive(s.events)
  }

  predicate AllLive(events: seq<Event>) {
    forall i :: 0 <= i < |events| ==> IsLive(events[i])
  }

  lemma AllLiveSnoc(events: seq<Event>, e: Event)
    requires AllLive(events) && IsLive(e)
    ensures AllLive(events + [e])
  {
    hide IsLive;
  }

  lemma AsProgressSnoc(messages: seq<string>, m: string)
    ensures AsProgress(messages + [m]) == AsProgress(messages) + [Output(Progress, m)]
  {
    assert |AsProgress(messages + [m])| == |AsProgress(messages) + [Output(Progress, m)]|;
  }

  lemma OutputsSnoc(events: seq<Event>, e: Event)
    ensures Outputs(events + [e]) == if e.Output? then Outputs(events) + [e] else Outputs(events)
  {
    FilterSnoc((x: Event) => x.Output?, events, e);
  }

  lemma StillReported(events: seq<Event>, m: string, e: Event)
    requires LastReported(events, m) && e.ErrorOutput?
    ensures LastReported(events + [e], m)
  {
    var i :| 0 <= i < |events| && events[i] == Output(Progress, m) && ErrorsAfter(events, i);
    var all := events + [e];
    assert all[i] == events[i];
    forall j | i < j < |all|
      ensures all[j].ErrorOutput?
    {
      assert j < |events| ==> all[j] == events[j];
    }
  }

  lemma NowReported(events: seq<Event>, m: string)
    ensures LastReported(events + [Output(Progress, m)], m)
  {
    var all := events + [Output(Progress, m)];
    assert all[|events|] == Output(Progress, m) && ErrorsAfter(all, |events|);
  }

  lemma ErrorRecorded(parse: string -> Line, s: State, t: State, text: string)
    requires Recorded(parse, s) && t == s.(events := s.events + [ErrorOutput(text)], handled := t.handled)
    requires Messages(parse, t.handled) == Messages(parse, s.handled)
    ensures Recorded(parse, t)
  {
    hide Messages, Outputs, AsProgress, AllLive, LastReported;
    OutputsSnoc(s.events, ErrorOutput(text));
    AllLiveSnoc(s.events, ErrorOutput(text));
    if s.pending.Some? {
      StillReported(s.events, s.pending.value, ErrorOutput(text));
    }
  }

  lemma MessageRecorded(parse: string -> Line, s: State, t: State, m: string)
    requires Recorded(parse, s) && m != ""
    requires t == s.(events := s.events + [Output(Progress, m)], handled := t.handled, pending := Some(m))
    requires Messages(parse, t.handled) == Messages(parse, s.handled) + [m]
    ensures Recorded(parse, t)
  {
    hide Messages, Outputs, AsProgress, AllLive, LastReported;
    OutputsSnoc(s.events, Output(Progress, m));
    AsProgressSnoc(Messages(parse, s.handled), m);
    AllLiveSnoc(s.events, Output(Progress, m));
    NowReported(s.events, m);
  }

  lemma HandleRecorded(parse: string -> Line, s: State, line: string)
    requires Recorded(parse, s) && NoEmptyMessage(parse)
    ensures Recorded(parse, Handle(parse, s, line))
  {
    var t, messages := Handle(parse, s, line), Messages(parse, s.handled);
    FlatMapSnoc(l => TextOf(parse, l), s.handled, line);
    if parse(line).Message? {
      assert Messages(parse, t.handled) == messages + [parse(line).text];
      hide Messages, Outputs, AsProgress;
      MessageRecorded(parse, s, t, parse(line).text);
    } else {
      assert messages + [] == messages;
      assert Messages(parse, t.handled) == messages;
      hide Messages, Outputs, AsProgress;
      if parse(line).Failure? {
        ErrorRecorded(parse, s, t, "ERROR: " + parse(line).message);
      }
    }
  }

  lemma {:induction false} HandleAllRecorded(parse: string -> Line, s: State, lines: seq<string>)
    requires Recorded(parse, s) && NoEmptyMessage(parse)
    ensures forall n :: 0 <= n <= |lines| ==> Recorded(parse, HandleAll(parse, s, lines[..n]))
    decreases lines
  {
    if lines != [] {
      HandleRecorded(parse, s, lines[0]);
      hide Recorded, Handle, NoEmptyMessage;
      HandleAllRecorded(parse, Handle(parse, s, lines[0]), lines[1..]);
    }
    hide Recorded, Handle, NoEmptyMessage;
    forall n | 0 <= n <= |lines|
      ensures Recorded(parse, HandleAll(parse, s, lines[..n]))
    {
      assert n > 0 ==> lines[..n][1..] == lines[1..][..n - 1];
    }
  }

  lemma {:induction false} RunRecorded(parse: string -> Line, s: State, steps: seq<Step>)
    requires Recorded(parse, s) && NoEmptyMessage(parse)
    ensures forall n :: 0 <= n <= |steps| ==> Recorded(parse, Run(parse, s, steps[..n]))
    decreases steps
  {
    if steps != [] {
      var next := Take(parse, s, steps[0]);
      match steps[0] {
        case Stdout(chunk) =>
          var lines := Split(s.buffer + chunk);
          HandleAllRecorded(parse, s.(buffer := Last(lines)), Init(lines));
          assert Init(lines)[..|Init(lines)|] == Init(lines);
        case Stderr(chunk) => ErrorRecorded(parse, s, next, chunk);
      }
      assert Recorded(parse, next);
      hide Recorded, Take, NoEmptyMessage, HandleAll, Split;
      RunRecorded(parse, Take(parse, s, steps[0]), steps[1..]);
    }
    hide Recorded, Take, NoEmptyMessage;
    forall n | 0 <= n <= |steps|
      ensures Recorded(parse, Run(parse, s, steps[..n]))
    {
      assert n > 0 ==> steps[..n][1..] == steps[1..][..n - 1];
    }
  }

  /** The state of a process run when it closes. */
  function Closed(parse: string -> Line, steps: seq<Step>, exitCode: int): State {
    OnClose(parse, Run(parse, Fresh(true), steps), exitCode)
  }

  /** What the agent output amounts to: every message as progress, then the last one again, as final after a success. */
  lemma OutputsAreMessages(parse: string -> Line, steps: seq<Step>, exitCode: int)
    requires NoEmptyMessage(parse)
    ensures var messages := Messages(parse, LinesOf(Written(steps)));
            Outputs(Closed(parse, steps, exitCode).events) ==
            AsProgress(messages)
              + if messages == [] then []
                else [Output(if exitCode == 0 then Final else Progress, messages[|messages| - 1])]
  {
    var s, _ := Unfinished(parse, steps, exitCode);
    var messages := Messages(parse, s.handled);
    var isOutput := (e: Event) => e.Output?;
    if s.pending.Some? {
      var last := Output(if exitCode == 0 then Final else Progress, s.pending.value);
      FilterSnoc(isOutput, s.events, last);
      FilterSnoc(isOutput, s.events + [last], Done(exitCode));
    } else {
      FilterSnoc(isOutput, s.events, Done(exitCode));
      assert AsProgress(messages) + [] == AsProgress(messages);
    }
  }

  /** The state just before the process is recorded as finished. */
  lemma Unfinished(parse: string -> Line, steps: seq<Step>, exitCode: int) returns (s: State, closed: State)
    requires NoEmptyMessage(parse)
    ensures Recorded(parse, s) && s.handled == LinesOf(Written(steps))
    ensures closed == Closed(parse, steps, exitCode) == Finish(s, exitCode)
    ensures closed.handled == s.handled
  {
    var t := Run(parse, Fresh(true), steps);
    assert Messages(parse, []) == [] && Outputs([]) == [] && AsProgress([]) == [];
    RunRecorded(parse, Fresh(true), steps);
    assert steps[..|steps|] == steps;
    LinesOfWhole(parse, steps, exitCode);
    s := if Blank(t.buffer) then t else Handle(parse, t, t.buffer);
    if !Blank(t.buffer) {
      HandleRecorded(parse, t, t.buffer);
    }
    closed := Closed(parse, steps, exitCode);
    hide Run, LinesOf, Handle, Blank, Messages, Outputs, AsProgress;
  }

  /** Event `i` is the last report of `last`; then only errors, the repetition of `last`, and the end. */
  predicate EndsWithRepeat(events: seq<Event>, i: nat, last: string, exitCode: int) {
    && i < |events| - 2 && events[i] == Output(Progress, last)
    && (forall j :: 0 <= j < |events| - 2 ==> IsLive(events[j]))
    && (forall j :: i < j < |events| - 2 ==> events[j].ErrorOutput?)
    && events[|events| - 2] == Output(if exitCode == 0 then Final else Progress, last)
    && events[|events| - 1] == Done(exitCode)
  }

  lemma FinishRepeats(parse: string -> Line, s: State, exitCode: int) returns (i: nat)
    requires Recorded(parse, s) && Messages(parse, s.handled) != []
    ensures EndsWithRepeat(Finish(s, exitCode).events, i,
                           Messages(parse, s.handled)[|Messages(parse, s.handled)| - 1], exitCode)
  {
    hide Messages, Outputs, AsProgress, IsLive;
    assert LastReported(s.events, s.pending.value);
    var k :| 0 <= k < |s.events| && s.events[k] == Output(Progress, s.pending.value) && ErrorsAfter(s.events, k);
    i := k;
    var events := Finish(s, exitCode).events;
    assert events == s.events + [Output(if exitCode == 0 then Final else Progress, s.pending.value)] + [Done(exitCode)];
    assert forall j :: 0 <= j < |s.events| ==> events[j] == s.events[j];
  }

  /** Between the last message and its repetition at the end there is only error output. */
  lemma OnlyErrorsBeforeRepeat(parse: string -> Line, steps: seq<Step>, exitCode: int) returns (i: nat)
    requires NoEmptyMessage(parse) && Messages(parse, LinesOf(Written(steps))) != []
    ensures var messages := Messages(parse, LinesOf(Written(steps)));
            EndsWithRepeat(Closed(parse, steps, exitCode).events, i, messages[|messages| - 1], exitCode)
  {
    var s, closed := Unfinished(parse, steps, exitCode);
    hide Recorded, Messages, LinesOf, Written, Closed, Finish, EndsWithRepeat;
    i := FinishRepeats(parse, s, exitCode);
  }

  // ---- White space

  /** White space as the host language trims it: the Unicode space separators, line ends, and the byte order mark. */
  lemma SpacesAre(c: char)
    ensures IsSpace(c) <==>
            || 0x9 <= c as int <= 0xD || 0x2000 <= c as int <= 0x200A
            || c as int in {0x20, 0xA0, 0x1680, 0x2028, 0x2029, 0x202F, 0x205F, 0x3000, 0xFEFF}
  {
  }

  predicate AllSpace(s: string) {
    forall c :: c in s ==> IsSpace(c)
  }

  lemma {:induction false} TrimStartMeans(s: string) returns (a: string)
    ensures s == a + TrimStart(s) && AllSpace(a)
    ensures TrimStart(s) != [] ==> !IsSpace(TrimStart(s)[0])
  {
    a := [];
    if s != [] && IsSpace(s[0]) {
      a := TrimStartMeans(s[1..]);
      a := [s[0]] + a;
      assert s == [s[0]] + s[1..];
    }
    hide IsSpace;
  }

  lemma {:induction false} TrimEndMeans(s: string) returns (b: string)
    ensures s == TrimEnd(s) + b && AllSpace(b)
    ensures TrimEnd(s) != [] ==> !IsSpace(TrimEnd(s)[|TrimEnd(s)| - 1]) && TrimEnd(s)[0] == s[0]
  {
    b := [];
    if s != [] && IsSpace(s[|s| - 1]) {
      b := TrimEndMeans(s[..|s| - 1]);
      b := b + [s[|s| - 1]];
      assert s == s[..|s| - 1] + [s[|s| - 1]];
    }
    hide IsSpace;
  }

  /** Trimming takes white space off both ends, and all of it. */
  lemma TrimMeans(s: string) returns (a: string, b: string)
    ensures s == a + Trim(s) + b && AllSpace(a) && AllSpace(b)
    ensures Trim(s) != [] ==> !IsSpace(Trim(s)[0]) && !IsSpace(Trim(s)[|Trim(s)| - 1])
    ensures Blank(s) <==> Trim(s) == []
  {
    a := TrimStartMeans(s);
    b := TrimEndMeans(TrimStart(s));
    hide IsSpace, TrimStart, TrimEnd;
    assert s == a + Trim(s) + b;
    if Trim(s) == [] {
      assert forall i :: 0 <= i < |s| ==> s[i] in a + b;
    } else {
      assert s[|a|] == Trim(s)[0];
    }
  }

  // ---- A process whose output is not read as JSON

  function RawEvent(step: Step): Event {
    match step
    case Stdout(chunk) => Raw(chunk)
    case Stderr(chunk) => ErrorOutput(chunk)
  }

  lemma {:induction false} RawRun(parse: string -> Line, s: State, steps: seq<Step>)
    requires !s.json && !s.settled
    ensures var t := Run(parse, s, steps);
            !t.json && !t.settled && t.events == s.events + Map(RawEvent, steps)
    decreases steps
  {
    if steps != [] {
      var next := Take(parse, s, steps[0]);
      RawStep(parse, s, steps[0]);
      hide Take, RawEvent;
      RawRun(parse, next, steps[1..]);
      MapFirst(RawEvent, steps);
      hide Run, Map;
      Assoc(s.events, [RawEvent(steps[0])], Map(RawEvent, steps[1..]));
    } else {
      assert Map(RawEvent, steps) == [];
    }
  }

  lemma RawStep(parse: string -> Line, s: State, step: Step)
    requires !s.json && !s.settled
    ensures var t := Take(parse, s, step); !t.json && !t.settled && t.events == s.events + [RawEvent(step)]
  {
  }

  /** Its chunks pass through as they are, in order, and then the end. */
  lemma RawPassesThrough(parse: string -> Line, steps: seq<Step>, exitCode: int)
    ensures OnClose(parse, Run(parse, Fresh(false), steps), exitCode).events
         == Map(RawEvent, steps) + [Done(exitCode)]
    ensures forall i :: 0 <= i < |steps| ==>
              Map(RawEvent, steps)[i] == if steps[i].Stdout? then Raw(steps[i].chunk) else ErrorOutput(steps[i].chunk)
  {
    RawRun(parse, Fresh(false), steps);
  }

  /** What the end of a process adds: the last message again, unless there is none or it is empty, and the end. */
  lemma FinishMeans(s: State, exitCode: int)
    ensures !s.settled ==>
              && Finish(s, exitCode).settled
              && Finish(s, exitCode).events == s.events
                 + (if !s.json || s.pending == None || s.pending == Some("") then []
                    else [Output(if exitCode == 0 then Final else Progress, s.pending.value)])
                 + [Done(exitCode)]
    ensures s.settled ==> Finish(s, exitCode) == s
  {
    if !s.json || s.pending == None || s.pending == Some("") {
      assert s.events + [] == s.events;
    }
  }
}
